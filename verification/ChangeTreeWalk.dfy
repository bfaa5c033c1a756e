/** The explicit-stack walk over a change tree, on any object graph, cyclic ones included. */
module ChangeTreeWalk {
  import opened Common
  import opened ChangeTree

  datatype Task =
    | Enter(parent: Option<nat>, id: Option<Id>, node: Ref, depth: nat)
    | Leave(left: Ref)

  /** What is left to do, top of the stack last. */
  function Remaining(g: Graph, opts: Options, stack: seq<Task>, active: set<Ref>, w: Walked): Option<Walked>
    decreases |stack|
  {
    if stack == [] then Some(w)
    else
      var rest := stack[..|stack| - 1];
      match stack[|stack| - 1]
      case Leave(r) => Remaining(g, opts, rest, active - {r}, w)
      case Enter(parent, id, r, depth) =>
        var visited := Visit(g, opts, parent, id, r, depth, active, w);
        if visited.None? then None else Remaining(g, opts, rest, active, visited.value)
  }

  /** The children of a node, pushed last to first. */
  function Enters(edges: seq<Edge>, parent: nat, depth: nat): seq<Task> {
    if edges == [] then []
    else Enters(edges[1..], parent, depth) + [Enter(Some(parent), Some(edges[0].id), edges[0].target, depth)]
  }

  lemma {:induction false} EntersVisitAll(g: Graph, opts: Options, stack: seq<Task>, edges: seq<Edge>, parent: nat, depth: nat, active: set<Ref>, w: Walked)
    ensures Remaining(g, opts, stack + Enters(edges, parent, depth), active, w)
            == var all := VisitAll(g, opts, parent, edges, depth, active, w);
               if all.None? then None else Remaining(g, opts, stack, active, all.value)
    decreases |edges|
  {
    if edges == [] {
      assert stack + [] == stack;
    } else {
      var top := Enter(Some(parent), Some(edges[0].id), edges[0].target, depth);
      var below := stack + Enters(edges[1..], parent, depth);
      assert stack + Enters(edges, parent, depth) == below + [top];
      assert (below + [top])[..|below|] == below;
      var first := Visit(g, opts, Some(parent), Some(edges[0].id), edges[0].target, depth, active, w);
      if first.Some? { EntersVisitAll(g, opts, stack, edges[1..], parent, depth, active, first.value); }
    }
  }

  /** Expanding a node on the stack leaves the same work to do. */
  lemma ExpandKeeps(g: Graph, opts: Options, rest: seq<Task>, r: Ref, edges: seq<Edge>, parent: nat, depth: nat, active: set<Ref>, w: Walked)
    requires r !in active
    ensures Remaining(g, opts, rest + [Leave(r)] + Enters(edges, parent, depth), active + {r}, w)
            == var all := VisitAll(g, opts, parent, edges, depth, active + {r}, w);
               if all.None? then None else Remaining(g, opts, rest, active, all.value)
  {
    EntersVisitAll(g, opts, rest + [Leave(r)], edges, parent, depth, active + {r}, w);
    assert (rest + [Leave(r)])[..|rest|] == rest;
    assert active + {r} - {r} == active;
  }

  // ---------------------------------------------------------------- the root path

  /** The nodes entered and not yet left, outermost first. */
  function OpenNodes(stack: seq<Task>): seq<Ref> {
    if stack == [] then []
    else
      var rest := OpenNodes(stack[..|stack| - 1]);
      var top := stack[|stack| - 1];
      if top.Leave? then rest + [top.left] else rest
  }

  predicate ChildOf(g: Graph, p: Ref, r: Ref) {
    var n := Lookup(g, p);
    n.Object? && n.children.Entries? && exists k :: 0 <= k < |n.children.edges| && n.children.edges[k].target == r
  }

  /** A node hangs below the innermost open node, or is the root. */
  predicate Hangs(g: Graph, root: Ref, path: seq<Ref>, r: Ref) {
    if path == [] then r == root else ChildOf(g, path[|path| - 1], r)
  }

  /** Every task sits on the path from the root that is open below it, at the matching depth. */
  predicate OnPath(g: Graph, root: Ref, stack: seq<Task>) {
    stack == [] ||
    var rest, top := stack[..|stack| - 1], stack[|stack| - 1];
    var path := OpenNodes(rest);
    && OnPath(g, root, rest)
    && (top.Enter? ==> top.depth == |path| + 1 && Hangs(g, root, path, top.node))
    && (top.Leave? ==> top.left !in path && Hangs(g, root, path, top.left))
  }

  /** So the open nodes are a path of distinct nodes from the root. */
  predicate RootPath(g: Graph, root: Ref, path: seq<Ref>) {
    path == [] ||
    var rest := path[..|path| - 1];
    RootPath(g, root, rest) && path[|path| - 1] !in rest && Hangs(g, root, rest, path[|path| - 1])
  }

  lemma {:induction false} OpenIsRootPath(g: Graph, root: Ref, stack: seq<Task>)
    requires OnPath(g, root, stack)
    ensures RootPath(g, root, OpenNodes(stack))
  {
    if stack != [] {
      var rest, top := stack[..|stack| - 1], stack[|stack| - 1];
      OpenIsRootPath(g, root, rest);
      if top.Leave? { assert (OpenNodes(rest) + [top.left])[..|OpenNodes(rest)|] == OpenNodes(rest); }
    }
  }

  lemma {:induction false} EntersOnPath(g: Graph, root: Ref, stack: seq<Task>, p: Ref, edges: seq<Edge>, k: nat, parent: nat)
    requires OnPath(g, root, stack) && OpenNodes(stack) != [] && OpenNodes(stack)[|OpenNodes(stack)| - 1] == p
    requires Lookup(g, p).Object? && Lookup(g, p).children == Entries(edges) && k <= |edges|
    ensures var pushed := stack + Enters(edges[k..], parent, |OpenNodes(stack)| + 1);
      OnPath(g, root, pushed) && OpenNodes(pushed) == OpenNodes(stack)
    decreases |edges| - k
  {
    if k == |edges| {
      assert stack + [] == stack;
    } else {
      EntersOnPath(g, root, stack, p, edges, k + 1, parent);
      var depth := |OpenNodes(stack)| + 1;
      var below, top := stack + Enters(edges[k + 1..], parent, depth), Enter(Some(parent), Some(edges[k].id), edges[k].target, depth);
      EntersTail(edges, k, parent, depth);
      Regroup(stack, Enters(edges[k + 1..], parent, depth), [top]);
      assert ChildOf(g, p, edges[k].target);
      PushEnter(g, root, below, top);
    }
  }

  lemma EntersTail(edges: seq<Edge>, k: nat, parent: nat, depth: nat)
    requires k < |edges|
    ensures Enters(edges[k..], parent, depth)
            == Enters(edges[k + 1..], parent, depth) + [Enter(Some(parent), Some(edges[k].id), edges[k].target, depth)]
  {
    assert edges[k..][1..] == edges[k + 1..];
  }

  lemma PushEnter(g: Graph, root: Ref, below: seq<Task>, top: Task)
    requires OnPath(g, root, below) && top.Enter?
    requires top.depth == |OpenNodes(below)| + 1 && Hangs(g, root, OpenNodes(below), top.node)
    ensures OnPath(g, root, below + [top]) && OpenNodes(below + [top]) == OpenNodes(below)
  {
    assert (below + [top])[..|below|] == below;
  }

  lemma PushLeave(g: Graph, root: Ref, rest: seq<Task>, r: Ref)
    requires OnPath(g, root, rest) && r !in OpenNodes(rest) && Hangs(g, root, OpenNodes(rest), r)
    ensures OnPath(g, root, rest + [Leave(r)]) && OpenNodes(rest + [Leave(r)]) == OpenNodes(rest) + [r]
  {
    assert (rest + [Leave(r)])[..|rest|] == rest;
  }

  // ---------------------------------------------------------------- the loop

  method PushChildren(stack: seq<Task>, edges: seq<Edge>, parent: nat, depth: nat) returns (pushed: seq<Task>)
    ensures pushed == stack + Enters(edges, parent, depth)
  {
    pushed := stack;
    var index := |edges|;
    assert stack + [] == stack;
    while index > 0
      invariant 0 <= index <= |edges|
      invariant pushed == stack + Enters(edges[index..], parent, depth)
    {
      index := index - 1;
      assert edges[index..][1..] == edges[index + 1..];
      pushed := pushed + [Enter(Some(parent), Some(edges[index].id), edges[index].target, depth)];
    }
    assert edges[0..] == edges;
  }

  /** The variables of the walk. */
  datatype State = State(w: Walked, active: set<Ref>, pending: seq<Task>)

  function Left(g: Graph, opts: Options, s: State): Option<Walked> { Remaining(g, opts, s.pending, s.active, s.w) }

  /** The active set is exactly the current root path. */
  predicate StateOk(g: Graph, root: Ref, s: State) {
    |s.w.entries| <= MAX_NODES && OnPath(g, root, s.pending) && s.active == (set n | n in OpenNodes(s.pending))
  }

  method LeaveNode(g: Graph, opts: Options, root: Ref, s: State) returns (s': State)
    requires StateOk(g, root, s) && s.pending != [] && s.pending[|s.pending| - 1].Leave?
    ensures StateOk(g, root, s') && Left(g, opts, s') == Left(g, opts, s)
    ensures s'.w == s.w && |s'.pending| < |s.pending|
  {
    var rest, left := s.pending[..|s.pending| - 1], s.pending[|s.pending| - 1].left;
    assert OpenNodes(s.pending) == OpenNodes(rest) + [left];
    s' := State(s.w, s.active - {left}, rest);
  }

  /** Replace an expandable node by its children and the mark that leaves it. */
  method ExpandNode(g: Graph, opts: Options, root: Ref, active: set<Ref>, rest: seq<Task>, node: Ref, edges: seq<Edge>,
                    base: nat, depth: nat, w: Walked) returns (s': State)
    requires OnPath(g, root, rest) && active == (set n | n in OpenNodes(rest)) && node !in active
    requires depth == |OpenNodes(rest)| + 1 && Hangs(g, root, OpenNodes(rest), node)
    requires Lookup(g, node).Object? && Lookup(g, node).children == Entries(edges) && |w.entries| <= MAX_NODES
    ensures StateOk(g, root, s') && s'.w == w
    ensures Left(g, opts, s')
            == var all := VisitAll(g, opts, base, edges, depth + 1, active + {node}, w);
               if all.None? then None else Remaining(g, opts, rest, active, all.value)
  {
    ExpandKeeps(g, opts, rest, node, edges, base, depth + 1, active, w);
    PushLeave(g, root, rest, node);
    EntersOnPath(g, root, rest + [Leave(node)], node, edges, 0, base);
    assert edges[0..] == edges;
    var pushed := PushChildren(rest + [Leave(node)], edges, base, depth + 1);
    s' := State(w, active + {node}, pushed);
  }

  method EnterNode(g: Graph, opts: Options, root: Ref, s: State) returns (r: Option<State>)
    requires StateOk(g, root, s) && s.pending != [] && s.pending[|s.pending| - 1].Enter?
    ensures r.None? ==> Left(g, opts, s) == None
    ensures r.Some? ==> StateOk(g, root, r.value) && Left(g, opts, r.value) == Left(g, opts, s)
                        && |r.value.w.entries| > |s.w.entries|
  {
    var rest := s.pending[..|s.pending| - 1];
    var Enter(parent, id, node, depth) := s.pending[|s.pending| - 1];
    if !NodeOk(g, opts, id, node, depth, s.active) || |s.w.entries| >= MAX_NODES { return None; }
    var n := Lookup(g, node);
    if n.children.NotAnObject? { return None; }
    var seen := Recorded(s.w, parent, Visited(id, n.kind.value, n.change), TailOf(opts, id, n.children));
    if n.children.Entries? {
      if s.w.edges + |n.children.edges| > MAX_EDGES { return None; }
      seen := seen.(edges := s.w.edges + |n.children.edges|);
      if !Stops(opts, id) {
        var next := ExpandNode(g, opts, root, s.active, rest, node, n.children.edges, |s.w.arena|, depth, seen);
        return Some(next);
      }
    }
    r := Some(State(seen, s.active, rest));
  }

  lemma StartOk(g: Graph, opts: Options, rootId: Option<Id>, root: Ref)
    ensures var s := State(Walked([], 0, []), {}, [Enter(None, rootId, root, 1)]);
      StateOk(g, root, s) && Left(g, opts, s) == Visit(g, opts, None, rootId, root, 1, {}, Walked([], 0, []))
  {
    var start := [Enter(None, rootId, root, 1)];
    assert start[..|start| - 1] == [];
    assert OpenNodes([]) == [] && OpenNodes(start) == [];
    assert OnPath(g, root, []);
    assert Hangs(g, root, [], root);
    var visited := Visit(g, opts, None, rootId, root, 1, {}, Walked([], 0, []));
    if visited.Some? { assert Remaining(g, opts, [], {}, visited.value) == visited; }
  }

  /** Walk the graph from the root. Terminates on every graph; gives exactly what the budgeted visit
      gives. */
  method Collect(g: Graph, opts: Options, rootId: Option<Id>, root: Ref) returns (r: Option<Walked>)
    ensures r == Visit(g, opts, None, rootId, root, 1, {}, Walked([], 0, []))
  {
    var s := State(Walked([], 0, []), {}, [Enter(None, rootId, root, 1)]);
    StartOk(g, opts, rootId, root);
    while s.pending != []
      invariant Left(g, opts, s) == Visit(g, opts, None, rootId, root, 1, {}, Walked([], 0, []))
      invariant StateOk(g, root, s)
      decreases MAX_NODES - |s.w.entries|, |s.pending|
    {
      if s.pending[|s.pending| - 1].Leave? {
        s := LeaveNode(g, opts, root, s);
      } else {
        var next := EnterNode(g, opts, root, s);
        if next.None? { return None; }
        s := next.value;
      }
    }
    r := Some(s.w);
  }

  /** The whole story: the walk succeeds exactly when some tree of at most 32768 nodes and 131072 edges
      shows what lies below the root (an object cycle, a bad node or too deep a path has none); it returns
      the pre-order of that tree and a snapshot that reads back as that tree. */
  lemma CollectMeaning(g: Graph, opts: Options, rootId: Option<Id>, root: Ref)
    ensures var r := Visit(g, opts, None, rootId, root, 1, {}, Walked([], 0, []));
      && (r.Some? <==> exists t :: Shows(g, opts, rootId, root, 1, {}, t) && |PreOrder(t)| <= 32768 && EdgeCount(t) <= 131072)
      && (r.Some? ==> forall t :: Shows(g, opts, rootId, root, 1, {}, t) ==>
            r.value.entries == PreOrder(t) && r.value.edges == EdgeCount(t) && Copies(r.value.arena, 0, t))
  {
    VisitIsPreOrder(g, opts, None, rootId, root, 1, {}, Walked([], 0, []));
    var t := Unfold(g, opts, rootId, root, 1, {});
    forall u ensures t == Some(u) <==> Shows(g, opts, rootId, root, 1, {}, u) { UnfoldIff(g, opts, rootId, root, 1, {}, u); }
    if t.Some? {
      assert Shows(g, opts, rootId, root, 1, {}, t.value);
      assert [] + PreOrder(t.value) == PreOrder(t.value);
      assert [] + Layout(t.value, 0) + [] == [] + Layout(t.value, 0);
      LayoutCopies([], t.value, []);
    }
  }
}
