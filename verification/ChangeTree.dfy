/** Change trees read out of an object graph: the tree a node unfolds to, and the bounds put on it. */
module ChangeTree {
  import opened Common

  type Id = nat
  type Ref = nat

  const MAX_NODES: nat := 32768
  const MAX_EDGES: nat := 131072
  const MAX_DEPTH: nat := 512

  datatype Edge = Edge(id: Id, target: Ref)
  datatype Children = Absent | Deferred | NotAnObject | Entries(edges: seq<Edge>)

  /** One object: its kind if valid, its change, its children. Objects may share and form cycles. */
  datatype Node = Primitive | Object(kind: Option<nat>, hasKeyId: bool, change: Option<nat>, children: Children)
  type Graph = seq<Node>

  datatype Options = Options(rejectDeferred: bool, stopBelow: set<Id>, canonical: Id -> bool)

  /** How a visited node's children appear in the snapshot. */
  datatype Tail = NoChildren | DeferredChildren | Expanded
  datatype Visited = Visited(id: Option<Id>, kind: nat, change: Option<nat>)
  datatype Tree = Tree(entry: Visited, tail: Tail, edges: nat, children: seq<Tree>)

  // ---------------------------------------------------------------- the unfolding

  predicate IdOk(opts: Options, id: Option<Id>) { id.Some? ==> opts.canonical(id.value) }

  function Lookup(g: Graph, r: Ref): Node { if r < |g| then g[r] else Primitive }

  /** A node that passes every check made before it is recorded. */
  predicate NodeOk(g: Graph, opts: Options, id: Option<Id>, r: Ref, depth: nat, active: set<Ref>) {
    var n := Lookup(g, r);
    && IdOk(opts, id) && depth <= MAX_DEPTH
    && n.Object? && r !in active
    && n.kind.Some? && !n.hasKeyId
    && !(n.children.Deferred? && opts.rejectDeferred)
  }

  predicate Stops(opts: Options, id: Option<Id>) { id.Some? && id.value in opts.stopBelow }

  /** The tree below a node, cut below stop nodes; none if any node on the way is bad, a path comes
      back to itself, or the tree is too deep. */
  function Unfold(g: Graph, opts: Options, id: Option<Id>, r: Ref, depth: nat, active: set<Ref>): Option<Tree>
    decreases MAX_DEPTH + 1 - depth, 0, 1
  {
    if depth > MAX_DEPTH || !NodeOk(g, opts, id, r, depth, active) then None
    else
      var n := Lookup(g, r);
      var entry := Visited(id, n.kind.value, n.change);
      match n.children
      case Absent => Some(Tree(entry, NoChildren, 0, []))
      case Deferred => Some(Tree(entry, DeferredChildren, 0, []))
      case NotAnObject => None
      case Entries(edges) =>
        if Stops(opts, id) then Some(Tree(entry, DeferredChildren, |edges|, []))
        else
          var children := UnfoldAll(g, opts, edges, depth + 1, active + {r});
          if children.None? then None else Some(Tree(entry, Expanded, |edges|, children.value))
  }

  function UnfoldAll(g: Graph, opts: Options, edges: seq<Edge>, depth: nat, active: set<Ref>): (r: Option<seq<Tree>>)
    ensures r.Some? ==> |r.value| == |edges|
    decreases MAX_DEPTH + 1 - depth, |edges| + 1, 0
  {
    if edges == [] then Some([])
    else
      var first := if depth <= MAX_DEPTH then Unfold(g, opts, Some(edges[0].id), edges[0].target, depth, active) else None;
      var rest := UnfoldAll(g, opts, edges[1..], depth, active);
      if first.None? || rest.None? then None else Some([first.value] + rest.value)
  }

  /** The tree shows what lies below an object, spelled out: every object on the way is within 512 levels,
      is not its own ancestor, has a valid kind and no key id, and its id is canonical; children that are
      deferred, or lie below a stop node, are not shown. */
  predicate Shows(g: Graph, opts: Options, id: Option<Id>, r: Ref, depth: nat, above: set<Ref>, t: Tree)
    decreases t, 1
  {
    && depth <= 512 && r < |g| && g[r].Object? && r !in above
    && (id.Some? ==> opts.canonical(id.value)) && g[r].kind.Some? && !g[r].hasKeyId
    && t.entry == Visited(id, g[r].kind.value, g[r].change)
    && match g[r].children
       case Absent => t.tail == NoChildren && t.edges == 0 && t.children == []
       case Deferred => !opts.rejectDeferred && t.tail == DeferredChildren && t.edges == 0 && t.children == []
       case NotAnObject => false
       case Entries(edges) =>
         && t.edges == |edges|
         && if id.Some? && id.value in opts.stopBelow then t.tail == DeferredChildren && t.children == []
            else t.tail == Expanded && ShowsAll(g, opts, edges, depth + 1, above + {r}, t.children)
  }

  /** One tree for each edge, in order. */
  predicate ShowsAll(g: Graph, opts: Options, edges: seq<Edge>, depth: nat, above: set<Ref>, ts: seq<Tree>)
    decreases ts, 0
  {
    && |ts| == |edges|
    && forall i :: 0 <= i < |ts| ==> Shows(g, opts, Some(edges[i].id), edges[i].target, depth, above, ts[i])
  }

  /** A node unfolds to a tree exactly if the tree shows what lies below it. */
  lemma {:induction false} UnfoldIff(g: Graph, opts: Options, id: Option<Id>, r: Ref, depth: nat, above: set<Ref>, t: Tree)
    ensures Unfold(g, opts, id, r, depth, above) == Some(t) <==> Shows(g, opts, id, r, depth, above, t)
    decreases t, 1
  {
    if depth <= MAX_DEPTH && r < |g| && g[r].Object? && g[r].children.Entries? {
      UnfoldAllIff(g, opts, g[r].children.edges, depth + 1, above + {r}, t.children);
    }
  }

  lemma {:induction false} UnfoldAllIff(g: Graph, opts: Options, edges: seq<Edge>, depth: nat, above: set<Ref>, ts: seq<Tree>)
    ensures UnfoldAll(g, opts, edges, depth, above) == Some(ts) <==> ShowsAll(g, opts, edges, depth, above, ts)
    decreases ts, 0
  {
    if ts != [] && edges != [] {
      UnfoldIff(g, opts, Some(edges[0].id), edges[0].target, depth, above, ts[0]);
      UnfoldAllIff(g, opts, edges[1..], depth, above, ts[1..]);
      assert ts == [ts[0]] + ts[1..];
      assert ShowsAll(g, opts, edges, depth, above, ts) <==>
               Shows(g, opts, Some(edges[0].id), edges[0].target, depth, above, ts[0]) && ShowsAll(g, opts, edges[1..], depth, above, ts[1..]) by {
        ShowsFirst(g, opts, edges, depth, above, ts);
      }
    }
  }

  lemma ShowsFirst(g: Graph, opts: Options, edges: seq<Edge>, depth: nat, above: set<Ref>, ts: seq<Tree>)
    requires ts != [] && edges != []
    ensures ShowsAll(g, opts, edges, depth, above, ts) <==>
              Shows(g, opts, Some(edges[0].id), edges[0].target, depth, above, ts[0]) && ShowsAll(g, opts, edges[1..], depth, above, ts[1..])
  {
    if ShowsAll(g, opts, edges[1..], depth, above, ts[1..]) {
      forall i | 1 <= i < |ts| && |ts| == |edges|
        ensures Shows(g, opts, Some(edges[i].id), edges[i].target, depth, above, ts[i])
      {
        assert ts[1..][i - 1] == ts[i] && edges[1..][i - 1] == edges[i];
      }
    }
    if ShowsAll(g, opts, edges, depth, above, ts) {
      forall i | 0 <= i < |ts| - 1
        ensures Shows(g, opts, Some(edges[1..][i].id), edges[1..][i].target, depth, above, ts[1..][i])
      {
        assert ts[1..][i] == ts[i + 1] && edges[1..][i] == edges[i + 1];
      }
    }
  }

  // ---------------------------------------------------------------- measures of a tree

  /** The nodes of a tree, each before its children. */
  function PreOrder(t: Tree): seq<Visited> {
    [t.entry] + PreOrderAll(t.children)
  }

  function PreOrderAll(ts: seq<Tree>): seq<Visited> {
    if ts == [] then [] else PreOrder(ts[0]) + PreOrderAll(ts[1..])
  }

  function EdgeCount(t: Tree): nat { t.edges + EdgeCountAll(t.children) }

  function EdgeCountAll(ts: seq<Tree>): nat {
    if ts == [] then 0 else EdgeCount(ts[0]) + EdgeCountAll(ts[1..])
  }

  function Size(t: Tree): nat { |PreOrder(t)| }

  // ---------------------------------------------------------------- the snapshot

  /** Snapshot objects in the order they were created; children refer to each other by position. */
  datatype Slot = Slot(id: Option<Id>, index: nat)
  datatype Snap = Snap(entry: Visited, tail: Tail, children: seq<Slot>)

  function Slots(ts: seq<Tree>, base: nat): seq<Slot> {
    if ts == [] then [] else [Slot(ts[0].entry.id, base)] + Slots(ts[1..], base + Size(ts[0]))
  }

  /** The snapshot objects of a tree whose root lands at position `base`. */
  function Layout(t: Tree, base: nat): seq<Snap> {
    [Snap(t.entry, t.tail, Slots(t.children, base + 1))] + LayoutAll(t.children, base + 1)
  }

  function LayoutAll(ts: seq<Tree>, base: nat): seq<Snap> {
    if ts == [] then [] else Layout(ts[0], base) + LayoutAll(ts[1..], base + Size(ts[0]))
  }

  /** The snapshot rooted at position i is a copy of the tree. */
  predicate Copies(arena: seq<Snap>, i: nat, t: Tree)
    decreases t, 0
  {
    && i < |arena|
    && arena[i].entry == t.entry && arena[i].tail == t.tail
    && CopiesAll(arena, arena[i].children, t.children)
  }

  predicate CopiesAll(arena: seq<Snap>, slots: seq<Slot>, ts: seq<Tree>)
    decreases ts, 1
  {
    if ts == [] then slots == []
    else
      && slots != [] && slots[0].id == ts[0].entry.id && Copies(arena, slots[0].index, ts[0])
      && CopiesAll(arena, slots[1..], ts[1..])
  }

  lemma {:induction false} LayoutSize(t: Tree, base: nat)
    ensures |Layout(t, base)| == Size(t)
  {
    LayoutAllSize(t.children, base + 1);
  }

  lemma {:induction false} LayoutAllSize(ts: seq<Tree>, base: nat)
    ensures |LayoutAll(ts, base)| == |PreOrderAll(ts)|
  {
    if ts != [] {
      LayoutSize(ts[0], base);
      LayoutAllSize(ts[1..], base + Size(ts[0]));
    }
  }

  /** Reading the laid-out objects back from the root gives the tree. */
  lemma {:induction false} LayoutCopies(before: seq<Snap>, t: Tree, behind: seq<Snap>)
    ensures Copies(before + Layout(t, |before|) + behind, |before|, t)
    decreases t, 0
  {
    var base := |before|;
    var arena, root := before + Layout(t, base) + behind, Snap(t.entry, t.tail, Slots(t.children, base + 1));
    assert arena == (before + [root]) + LayoutAll(t.children, base + 1) + behind;
    LayoutAllCopies(before + [root], t.children, behind);
    assert arena[base] == root;
  }

  lemma {:induction false} LayoutAllCopies(before: seq<Snap>, ts: seq<Tree>, behind: seq<Snap>)
    ensures CopiesAll(before + LayoutAll(ts, |before|) + behind, Slots(ts, |before|), ts)
    decreases ts, 1
  {
    if ts != [] {
      var base := |before|;
      var first, rest := Layout(ts[0], base), LayoutAll(ts[1..], base + Size(ts[0]));
      LayoutSize(ts[0], base);
      var arena := before + LayoutAll(ts, base) + behind;
      assert arena == before + first + (rest + behind);
      LayoutCopies(before, ts[0], rest + behind);
      assert arena == (before + first) + rest + behind;
      LayoutAllCopies(before + first, ts[1..], behind);
      var slots := Slots(ts, base);
      assert slots[1..] == Slots(ts[1..], base + Size(ts[0]));
    }
  }

  // ---------------------------------------------------------------- the budgeted visit

  /** Entries recorded, edges charged and snapshot objects made so far. */
  datatype Walked = Walked(entries: seq<Visited>, edges: nat, arena: seq<Snap>)

  function TailOf(opts: Options, id: Option<Id>, children: Children): Tail {
    match children
    case Absent => NoChildren
    case Entries(_) => if Stops(opts, id) then DeferredChildren else Expanded
    case _ => DeferredChildren
  }

  /** Hang the next snapshot object into its parent's children. */
  function Attach(arena: seq<Snap>, parent: Option<nat>, id: Option<Id>): seq<Snap> {
    if parent.Some? && parent.value < |arena| then
      arena[parent.value := arena[parent.value].(children := arena[parent.value].children + [Slot(id, |arena|)])]
    else arena
  }

  function Recorded(w: Walked, parent: Option<nat>, entry: Visited, tail: Tail): Walked {
    w.(entries := w.entries + [entry], arena := Attach(w.arena, parent, entry.id) + [Snap(entry, tail, [])])
  }

  /** Visit a node with the budgets threaded through, as the walk does. */
  function Visit(g: Graph, opts: Options, parent: Option<nat>, id: Option<Id>, r: Ref, depth: nat, active: set<Ref>, w: Walked): Option<Walked>
    decreases MAX_DEPTH + 1 - depth, 0, 1
  {
    if depth > MAX_DEPTH || !NodeOk(g, opts, id, r, depth, active) || |w.entries| >= MAX_NODES then None
    else
      var n := Lookup(g, r);
      var seen := Recorded(w, parent, Visited(id, n.kind.value, n.change), TailOf(opts, id, n.children));
      match n.children
      case Absent => Some(seen)
      case Deferred => Some(seen)
      case NotAnObject => None
      case Entries(edges) =>
        if w.edges + |edges| > MAX_EDGES then None
        else
          var charged := seen.(edges := w.edges + |edges|);
          if Stops(opts, id) then Some(charged)
          else VisitAll(g, opts, |w.arena|, edges, depth + 1, active + {r}, charged)
  }

  function VisitAll(g: Graph, opts: Options, parent: nat, edges: seq<Edge>, depth: nat, active: set<Ref>, w: Walked): Option<Walked>
    decreases MAX_DEPTH + 1 - depth, |edges| + 1, 0
  {
    if edges == [] then Some(w)
    else
      var first := if depth <= MAX_DEPTH then Visit(g, opts, Some(parent), Some(edges[0].id), edges[0].target, depth, active, w) else None;
      if first.None? then None else VisitAll(g, opts, parent, edges[1..], depth, active, first.value)
  }

  predicate Fits(w: Walked, entries: seq<Visited>, edges: nat) {
    |w.entries| + |entries| <= MAX_NODES && w.edges + edges <= MAX_EDGES
  }

  /** What is recorded after a whole tree, or a whole list of siblings, was visited. */
  function After(w: Walked, parent: Option<nat>, t: Tree): Walked {
    Walked(w.entries + PreOrder(t), w.edges + EdgeCount(t), Attach(w.arena, parent, t.entry.id) + Layout(t, |w.arena|))
  }

  function AfterAll(w: Walked, parent: nat, ts: seq<Tree>): Walked
    requires parent < |w.arena|
  {
    var owner := w.arena[parent];
    Walked(w.entries + PreOrderAll(ts), w.edges + EdgeCountAll(ts),
           w.arena[parent := owner.(children := owner.children + Slots(ts, |w.arena|))] + LayoutAll(ts, |w.arena|))
  }

  /** The visit succeeds exactly when the node unfolds to a tree that fits the budgets, and then it
      has recorded that tree in pre-order and copied it. */
  lemma {:induction false} VisitIsPreOrder(g: Graph, opts: Options, parent: Option<nat>, id: Option<Id>, r: Ref, depth: nat, active: set<Ref>, w: Walked)
    requires w.edges <= MAX_EDGES && (parent.Some? ==> parent.value < |w.arena|)
    ensures var t := Unfold(g, opts, id, r, depth, active);
      Visit(g, opts, parent, id, r, depth, active, w)
      == if t.Some? && Fits(w, PreOrder(t.value), EdgeCount(t.value)) then Some(After(w, parent, t.value)) else None
    decreases MAX_DEPTH + 1 - depth, 0, 1
  {
    if depth <= MAX_DEPTH && NodeOk(g, opts, id, r, depth, active) {
      var n := Lookup(g, r);
      var entry := Visited(id, n.kind.value, n.change);
      var seen := Recorded(w, parent, entry, TailOf(opts, id, n.children));
      if n.children.Entries? && !Stops(opts, id) {
        var edges := n.children.edges;
        var charged := seen.(edges := w.edges + |edges|);
        if |w.entries| < MAX_NODES && w.edges + |edges| <= MAX_EDGES {
          VisitAllIsPreOrder(g, opts, |w.arena|, edges, depth + 1, active + {r}, charged);
          var ts := UnfoldAll(g, opts, edges, depth + 1, active + {r});
          if ts.Some? { ExpandedAfter(w, parent, Tree(entry, Expanded, |edges|, ts.value), charged); }
        }
      } else if !n.children.NotAnObject? {
        var t := Unfold(g, opts, id, r, depth, active).value;
        LeafAfter(w, parent, t);
      }
    }
  }

  lemma LeafAfter(w: Walked, parent: Option<nat>, t: Tree)
    requires t.children == []
    ensures After(w, parent, t) == Recorded(w, parent, t.entry, t.tail).(edges := w.edges + t.edges)
  {
    assert t.children == [];
    assert PreOrderAll([]) == [] && EdgeCountAll([]) == 0 && LayoutAll([], |w.arena| + 1) == [] && Slots([], |w.arena| + 1) == [];
    assert PreOrder(t) == [t.entry];
    assert Layout(t, |w.arena|) == [Snap(t.entry, t.tail, [])];
  }

  lemma ExpandedAfter(w: Walked, parent: Option<nat>, t: Tree, charged: Walked)
    requires parent.Some? ==> parent.value < |w.arena|
    requires charged == Recorded(w, parent, t.entry, t.tail).(edges := w.edges + t.edges)
    ensures AfterAll(charged, |w.arena|, t.children) == After(w, parent, t)
    ensures Fits(charged, PreOrderAll(t.children), EdgeCountAll(t.children)) <==> Fits(w, PreOrder(t), EdgeCount(t))
  {
    ArenaExpanded(Attach(w.arena, parent, t.entry.id), |w.arena|, t);
    EntriesExpanded(w.entries, t);
  }

  lemma EntriesExpanded(entries: seq<Visited>, t: Tree)
    ensures entries + [t.entry] + PreOrderAll(t.children) == entries + PreOrder(t)
    ensures |entries + [t.entry]| + |PreOrderAll(t.children)| == |entries| + |PreOrder(t)|
  {
    Regroup(entries, [t.entry], PreOrderAll(t.children));
  }

  lemma ArenaExpanded(base: seq<Snap>, n: nat, t: Tree)
    requires |base| == n
    ensures var bare := Snap(t.entry, t.tail, []);
      && (base + [bare])[n] == bare && |base + [bare]| == n + 1
      && (base + [bare])[n := bare.(children := bare.children + Slots(t.children, n + 1))] + LayoutAll(t.children, n + 1)
         == base + Layout(t, n)
  {
    var bare, root := Snap(t.entry, t.tail, []), Snap(t.entry, t.tail, Slots(t.children, n + 1));
    assert bare.children + Slots(t.children, n + 1) == Slots(t.children, n + 1);
    assert (base + [bare])[n := root] == base + [root];
    Regroup(base, [root], LayoutAll(t.children, n + 1));
  }

  lemma {:induction false} VisitAllIsPreOrder(g: Graph, opts: Options, parent: nat, edges: seq<Edge>, depth: nat, active: set<Ref>, w: Walked)
    requires w.edges <= MAX_EDGES && |w.entries| <= MAX_NODES && parent < |w.arena|
    ensures var ts := UnfoldAll(g, opts, edges, depth, active);
      VisitAll(g, opts, parent, edges, depth, active, w)
      == if ts.Some? && Fits(w, PreOrderAll(ts.value), EdgeCountAll(ts.value)) then Some(AfterAll(w, parent, ts.value)) else None
    decreases MAX_DEPTH + 1 - depth, |edges| + 1, 0
  {
    if edges == [] {
      NothingAfter(w, parent);
    } else if depth <= MAX_DEPTH {
      var id, r := Some(edges[0].id), edges[0].target;
      VisitIsPreOrder(g, opts, Some(parent), id, r, depth, active, w);
      var first := Visit(g, opts, Some(parent), id, r, depth, active, w);
      if first.Some? {
        VisitAllIsPreOrder(g, opts, parent, edges[1..], depth, active, first.value);
        var t, rest := Unfold(g, opts, id, r, depth, active).value, UnfoldAll(g, opts, edges[1..], depth, active);
        if rest.Some? {
          SiblingsAfter(w, parent, t, rest.value);
          assert UnfoldAll(g, opts, edges, depth, active).value == [t] + rest.value;
        }
      }
    }
  }

  lemma NothingAfter(w: Walked, parent: nat)
    requires parent < |w.arena|
    ensures AfterAll(w, parent, []) == w
  {
    var owner := w.arena[parent];
    assert owner.children + [] == owner.children;
    assert w.arena[parent := owner] == w.arena;
  }

  lemma SiblingsAfter(w: Walked, parent: nat, t: Tree, rest: seq<Tree>)
    requires parent < |w.arena|
    ensures parent < |After(w, Some(parent), t).arena|
    ensures AfterAll(After(w, Some(parent), t), parent, rest) == AfterAll(w, parent, [t] + rest)
    ensures Fits(w, PreOrder(t), EdgeCount(t)) && Fits(After(w, Some(parent), t), PreOrderAll(rest), EdgeCountAll(rest))
            <==> Fits(w, PreOrderAll([t] + rest), EdgeCountAll([t] + rest))
  {
    var n, all := |w.arena|, [t] + rest;
    assert all[0] == t && all[1..] == rest;
    Regroup(w.entries, PreOrder(t), PreOrderAll(rest));
    ArenaSiblings(w.arena, parent, t, rest);
  }

  lemma ArenaSiblings(arena: seq<Snap>, parent: nat, t: Tree, rest: seq<Tree>)
    requires parent < |arena|
    ensures var n, all, owner := |arena|, [t] + rest, arena[parent];
      var first := Attach(arena, Some(parent), t.entry.id) + Layout(t, n);
      && parent < |first| && |first| == n + Size(t)
      && first[parent := first[parent].(children := first[parent].children + Slots(rest, |first|))] + LayoutAll(rest, |first|)
         == arena[parent := owner.(children := owner.children + Slots(all, n))] + LayoutAll(all, n)
  {
    var n, all, owner := |arena|, [t] + rest, arena[parent];
    assert all[0] == t && all[1..] == rest;
    LayoutSize(t, n);
    var one := owner.(children := owner.children + [Slot(t.entry.id, n)]);
    var many := owner.(children := owner.children + Slots(all, n));
    Regroup(owner.children, [Slot(t.entry.id, n)], Slots(rest, n + Size(t)));
    var first := arena[parent := one] + Layout(t, n);
    assert first[parent := many] == arena[parent := many] + Layout(t, n);
    Regroup(arena[parent := many], Layout(t, n), LayoutAll(rest, n + Size(t)));
  }
}
