/** The incremental index of object creations a document session keeps for path authorization,
    against rebuilding it from the whole history. */
module OperationIndex {
  import opened Common

  const MAX_OBJECTS: nat := 262144
  const MAX_CHAIN: nat := 64
  datatype ObjId = Root | Obj(counter: nat, actor: nat)
  datatype Kind = MapKind | SequenceKind
  datatype Node = Node(parent: ObjId, key: nat, kind: Kind)

  datatype Action = Make(kind: Kind) | Edit | Unsupported
  datatype Op = Op(action: Action, obj: ObjId, key: nat)
  datatype Change = Change(hash: nat, start: nat, actor: nat, actorOk: bool, ops: seq<Op>)

  type Index = map<ObjId, Node>

  /** The obj a change creates at one of its operations. */
  predicate Creates(c: Change, k: nat, id: ObjId, n: Node) {
    && k < |c.ops| && c.ops[k].action.Make?
    && id == Obj(c.start + k, c.actor)
    && n == Node(c.ops[k].obj, c.ops[k].key, c.ops[k].action.kind)
  }

  ghost predicate Defines(c: Change, id: ObjId, n: Node) { exists k: nat :: Creates(c, k, id, n) }

  /** The index holds exactly the creations in a set of changes. */
  ghost predicate Indexes(nodes: Index, doc: set<Change>) {
    && (forall id :: id in nodes ==> exists c :: c in doc && Defines(c, id, nodes[id]))
    && (forall c, id, n :: c in doc && Defines(c, id, n) ==> id in nodes && nodes[id] == n)
  }

  /** Each object is created by one change: how the engine numbers objects. */
  ghost predicate UniqueCreations(doc: set<Change>) {
    forall c, d, k: nat, j: nat, id, m, n ::
      c in doc && d in doc && Creates(c, k, id, m) && Creates(d, j, id, n) ==> c == d
  }

  /** The actor and operation numbers are within the bounds the index accepts. */
  predicate ChangeBounded(c: Change) {
    c.actorOk && forall k :: 0 <= k < |c.ops| && c.ops[k].action.Make? ==> c.start + k <= MAX_SAFE_INTEGER
  }

  predicate AllBounded(doc: set<Change>) { forall c :: c in doc ==> ChangeBounded(c) }

  /** No two changes create one object differently. */
  ghost predicate Consistent(doc: set<Change>) {
    forall c, d, id, m, n :: c in doc && d in doc && Defines(c, id, m) && Defines(d, id, n) ==> m == n
  }

  /** Adding one operation: bounds first, then no conflict with what is already there. */
  function AddOp(nodes: Index, c: Change, k: nat): Option<Index>
    requires k < |c.ops|
  {
    var op := c.ops[k];
    if !op.action.Make? then Some(nodes)
    else
      var id, n := Obj(c.start + k, c.actor), Node(op.obj, op.key, op.action.kind);
      if c.start + k > MAX_SAFE_INTEGER || |nodes| >= MAX_OBJECTS || (id in nodes && nodes[id] != n) then None
      else Some(nodes[id := n])
  }

  function AddOps(nodes: Index, c: Change, k: nat): Option<Index>
    requires k <= |c.ops|
  {
    if k == 0 then Some(nodes)
    else
      var before := AddOps(nodes, c, k - 1);
      if before.None? then None else AddOp(before.value, c, k - 1)
  }

  function AddChange(nodes: Index, c: Change): Option<Index> {
    if !c.actorOk then None else AddOps(nodes, c, |c.ops|)
  }

  /** Fold a list of changes, as a rebuild or an overlay does. */
  function AddAll(nodes: Index, changes: seq<Change>): Option<Index> {
    if changes == [] then Some(nodes)
    else
      var before := AddAll(nodes, changes[..|changes| - 1]);
      if before.None? then None else AddChange(before.value, changes[|changes| - 1])
  }

  /** An operation joins an index exactly if it creates nothing, or if its number is a safe integer, there
      is room for another object, and the object is new or was created just so before. */
  lemma AddOpIff(nodes: Index, c: Change, k: nat, id: ObjId, n: Node)
    requires k < |c.ops|
    ensures !c.ops[k].action.Make? ==> AddOp(nodes, c, k) == Some(nodes)
    ensures Creates(c, k, id, n) ==>
              AddOp(nodes, c, k) == if c.start + k <= 9007199254740991 && |nodes| < 262144 && (id in nodes ==> nodes[id] == n)
                                    then Some(nodes[id := n]) else None
  {}

  // ---------------------------------------------------------------- folding builds the index

  ghost predicate DefinesBelow(c: Change, k: nat, id: ObjId, n: Node) { exists j: nat :: j < k && Creates(c, j, id, n) }

  lemma {:induction false} AddOpsMeaning(nodes: Index, c: Change, k: nat, id: ObjId, n: Node)
    requires k <= |c.ops| && AddOps(nodes, c, k).Some?
    ensures var after := AddOps(nodes, c, k).value;
      (id in after && after[id] == n) <==> (id in nodes && nodes[id] == n) || DefinesBelow(c, k, id, n)
  {
    if k > 0 {
      AddOpsMeaning(nodes, c, k - 1, id, n);
      var before, op := AddOps(nodes, c, k - 1).value, c.ops[k - 1];
      if DefinesBelow(c, k - 1, id, n) {
        var j: nat :| j < k - 1 && Creates(c, j, id, n);
        assert j < k && Creates(c, j, id, n);
      }
      if op.action.Make? {
        var made, node := Obj(c.start + k - 1, c.actor), Node(op.obj, op.key, op.action.kind);
        assert Creates(c, k - 1, made, node);
      }
    }
  }

  lemma AddChangeMeaning(nodes: Index, c: Change, id: ObjId, n: Node)
    requires AddChange(nodes, c).Some?
    ensures var after := AddChange(nodes, c).value;
      (id in after && after[id] == n) <==> (id in nodes && nodes[id] == n) || Defines(c, id, n)
  {
    AddOpsMeaning(nodes, c, |c.ops|, id, n);
    if Defines(c, id, n) {
      var j: nat :| Creates(c, j, id, n);
      assert j < |c.ops| && Creates(c, j, id, n);
    }
  }

  lemma {:induction false} AddAllMeaning(nodes: Index, changes: seq<Change>, id: ObjId, n: Node)
    requires AddAll(nodes, changes).Some?
    ensures var after := AddAll(nodes, changes).value;
      (id in after && after[id] == n) <==> (id in nodes && nodes[id] == n) || exists c :: c in changes && Defines(c, id, n)
  {
    if changes != [] {
      var front, last := changes[..|changes| - 1], changes[|changes| - 1];
      AddAllMeaning(nodes, front, id, n);
      AddChangeMeaning(AddAll(nodes, front).value, last, id, n);
      assert changes == front + [last];
      assert forall c :: c in changes <==> c in front || c == last;
    }
  }

  function Listed(changes: seq<Change>): set<Change> { set c | c in changes }

  /** A rebuild that succeeds indexes exactly the listed changes, in whatever order they are listed. */
  lemma RebuildIndexes(changes: seq<Change>)
    requires AddAll(map[], changes).Some?
    ensures Indexes(AddAll(map[], changes).value, Listed(changes))
  {
    var after := AddAll(map[], changes).value;
    forall id | id in after ensures exists c :: c in Listed(changes) && Defines(c, id, after[id]) {
      AddAllMeaning(map[], changes, id, after[id]);
    }
    forall c, id, n | c in Listed(changes) && Defines(c, id, n) ensures id in after && after[id] == n {
      AddAllMeaning(map[], changes, id, n);
    }
  }

  /** A set of changes has at most one index. */
  lemma IndexIsUnique(a: Index, b: Index, doc: set<Change>)
    requires Indexes(a, doc) && Indexes(b, doc)
    ensures a == b
  {
    forall id ensures id in a <==> id in b {}
    forall id | id in a ensures a[id] == b[id] {
      var c :| c in doc && Defines(c, id, a[id]);
    }
  }

  lemma UniqueIsConsistent(doc: set<Change>)
    requires UniqueCreations(doc)
    ensures Consistent(doc)
  {
    forall c, d, id, m, n | c in doc && d in doc && Defines(c, id, m) && Defines(d, id, n) ensures m == n {
      var k: nat :| Creates(c, k, id, m);
      var j: nat :| Creates(d, j, id, n);
      assert c == d;
    }
  }

  // ---------------------------------------------------------------- when a rebuild succeeds

  lemma {:induction false} AddOpsBounds(nodes: Index, c: Change, k: nat)
    requires k <= |c.ops| && AddOps(nodes, c, k).Some? && |nodes| <= MAX_OBJECTS
    ensures |AddOps(nodes, c, k).value| <= MAX_OBJECTS
    ensures forall j :: 0 <= j < k && c.ops[j].action.Make? ==> c.start + j <= MAX_SAFE_INTEGER
  {
    if k > 0 { AddOpsBounds(nodes, c, k - 1); }
  }

  /** What a fold accepted is within the bounds. */
  lemma {:induction false} AddAllBounds(nodes: Index, changes: seq<Change>)
    requires AddAll(nodes, changes).Some? && |nodes| <= MAX_OBJECTS
    ensures |AddAll(nodes, changes).value| <= MAX_OBJECTS && AllBounded(Listed(changes))
  {
    if changes != [] {
      var front, last := changes[..|changes| - 1], changes[|changes| - 1];
      AddAllBounds(nodes, front);
      AddOpsBounds(AddAll(nodes, front).value, last, |last.ops|);
      SplitLast(changes);
    }
  }

  /** One more object than the index holds cannot turn up. */
  lemma RoomForOne(before: Index, index: Index, id: ObjId)
    requires before.Keys <= index.Keys && id in index && id !in before
    ensures |before| < |index|
  {
    SubsetSize(before.Keys, index.Keys - {id});
    assert |index.Keys - {id}| == |index.Keys| - 1;
  }

  lemma {:induction false} AddOpsSucceeds(nodes: Index, c: Change, k: nat, index: Index)
    requires k <= |c.ops| && ChangeBounded(c) && |index| <= MAX_OBJECTS && nodes.Keys <= index.Keys
    requires forall j: nat, id, n :: Creates(c, j, id, n) ==> id in index && id !in nodes
    ensures AddOps(nodes, c, k).Some?
    ensures AddOps(nodes, c, k).value.Keys <= index.Keys
    ensures forall id :: id in AddOps(nodes, c, k).value && id !in nodes ==> id.Obj? && id.counter < c.start + k
  {
    if k > 0 {
      AddOpsSucceeds(nodes, c, k - 1, index);
      var op := c.ops[k - 1];
      if op.action.Make? {
        var id, n := Obj(c.start + k - 1, c.actor), Node(op.obj, op.key, op.action.kind);
        assert Creates(c, k - 1, id, n);
        RoomForOne(AddOps(nodes, c, k - 1).value, index, id);
      }
    }
  }

  predicate NoDuplicates(listing: seq<Change>) {
    forall i, j :: 0 <= i < j < |listing| ==> listing[i] != listing[j]
  }

  /** What the next change creates is in the index of the whole and not yet in that of the prefix. */
  lemma NextCreationIsNew(listing: seq<Change>, n: nat, index: Index, j: nat, id: ObjId, node: Node)
    requires n < |listing| && NoDuplicates(listing) && UniqueCreations(Listed(listing)) && Indexes(index, Listed(listing))
    requires AddAll(map[], listing[..n]).Some? && Creates(listing[n], j, id, node)
    ensures id in index && id !in AddAll(map[], listing[..n]).value
  {
    var before := AddAll(map[], listing[..n]).value;
    assert Defines(listing[n], id, node) && listing[n] in Listed(listing);
    var m := if id in before then before[id] else node;
    AddAllMeaning(map[], listing[..n], id, m);
    forall c | c in listing[..n] ensures !Defines(c, id, m) {
      var i :| 0 <= i < n && listing[i] == c;
      OtherDefinesNot(Listed(listing), c, listing[n], j, id, node);
    }
  }

  lemma OtherDefinesNot(doc: set<Change>, c: Change, d: Change, j: nat, id: ObjId, node: Node)
    requires UniqueCreations(doc) && c in doc && d in doc && c != d && Creates(d, j, id, node)
    ensures forall m :: !Defines(c, id, m)
  {}

  lemma PrefixKeys(listing: seq<Change>, n: nat, index: Index)
    requires n <= |listing| && Indexes(index, Listed(listing)) && AddAll(map[], listing[..n]).Some?
    ensures AddAll(map[], listing[..n]).value.Keys <= index.Keys
  {
    var before := AddAll(map[], listing[..n]).value;
    forall id | id in before ensures id in index {
      AddAllMeaning(map[], listing[..n], id, before[id]);
      var c :| c in listing[..n] && Defines(c, id, before[id]);
      assert c in Listed(listing);
    }
  }

  lemma {:induction false} RebuildReaches(listing: seq<Change>, n: nat, index: Index)
    requires n <= |listing| && NoDuplicates(listing) && UniqueCreations(Listed(listing)) && AllBounded(Listed(listing))
    requires Indexes(index, Listed(listing)) && |index| <= MAX_OBJECTS
    ensures AddAll(map[], listing[..n]).Some?
  {
    if n > 0 {
      RebuildReaches(listing, n - 1, index);
      assert listing[..n][..n - 1] == listing[..n - 1];
      NextChangeFits(listing, n - 1, index);
    }
  }

  lemma NextChangeFits(listing: seq<Change>, n: nat, index: Index)
    requires n < |listing| && NoDuplicates(listing) && UniqueCreations(Listed(listing)) && AllBounded(Listed(listing))
    requires Indexes(index, Listed(listing)) && |index| <= MAX_OBJECTS
    requires AddAll(map[], listing[..n]).Some?
    ensures AddChange(AddAll(map[], listing[..n]).value, listing[n]).Some?
  {
    var before, c := AddAll(map[], listing[..n]).value, listing[n];
    assert c in Listed(listing);
    PrefixKeys(listing, n, index);
    forall j: nat, id, node | Creates(c, j, id, node) ensures id in index && id !in before {
      NextCreationIsNew(listing, n, index, j, id, node);
    }
    AddOpsSucceeds(before, c, |c.ops|, index);
  }

  /** A bounded index of a document the engine could have made is what a rebuild gives: the rebuild
      succeeds, in whatever order the changes are listed. */
  lemma RebuildSucceeds(listing: seq<Change>, index: Index)
    requires NoDuplicates(listing) && UniqueCreations(Listed(listing)) && AllBounded(Listed(listing))
    requires Indexes(index, Listed(listing)) && |index| <= MAX_OBJECTS
    ensures AddAll(map[], listing) == Some(index)
  {
    RebuildReaches(listing, |listing|, index);
    assert listing[..|listing|] == listing;
    RebuildIndexes(listing);
    IndexIsUnique(index, AddAll(map[], listing).value, Listed(listing));
  }

  // ---------------------------------------------------------------- accepting an overlay

  ghost predicate Agree(a: Index, b: Index) { forall id :: id in a && id in b ==> a[id] == b[id] }

  /** Accepting an overlay gives the index of the longer history exactly when the overlay does not
      redefine an object. The overlay is only checked against itself, so this rests on the engine
      never numbering two objects alike. */
  lemma AcceptIsRebuildIff(nodes: Index, overlay: Index, doc: set<Change>, added: set<Change>)
    requires Indexes(nodes, doc) && Indexes(overlay, added)
    ensures Indexes(nodes + overlay, doc + added) <==> Agree(nodes, overlay)
  {
    var after := nodes + overlay;
    if Agree(nodes, overlay) {
      forall id | id in after ensures exists c :: c in doc + added && Defines(c, id, after[id]) {
        if id in overlay {
          var c :| c in added && Defines(c, id, overlay[id]);
          assert c in doc + added;
        } else {
          var c :| c in doc && Defines(c, id, nodes[id]);
          assert c in doc + added;
        }
      }
    }
    if Indexes(after, doc + added) {
      forall id | id in nodes && id in overlay ensures nodes[id] == overlay[id] {
        var c :| c in doc && Defines(c, id, nodes[id]);
        assert c in doc + added;
      }
    }
  }

  lemma ConsistentAgrees(nodes: Index, overlay: Index, doc: set<Change>, added: set<Change>)
    requires Indexes(nodes, doc) && Indexes(overlay, added) && Consistent(doc + added)
    ensures Agree(nodes, overlay)
  {
    forall id | id in nodes && id in overlay ensures nodes[id] == overlay[id] {
      var c :| c in doc && Defines(c, id, nodes[id]);
      var d :| d in added && Defines(d, id, overlay[id]);
      assert c in doc + added && d in doc + added;
    }
  }

  // ---------------------------------------------------------------- paths

  function NodeAt(nodes: Index, overlay: Index, id: ObjId): Option<Node> {
    if id in overlay then Some(overlay[id]) else if id in nodes then Some(nodes[id]) else None
  }

  /** The creations from the root down to an object, at most `limit` of them. */
  function Creation(nodes: Index, overlay: Index, id: ObjId, limit: nat): Option<seq<Node>>
    decreases limit
  {
    if id == Root then Some([])
    else if limit == 0 then None
    else
      var n := NodeAt(nodes, overlay, id);
      if n.None? then None
      else
        var above := Creation(nodes, overlay, n.value.parent, limit - 1);
        if above.None? then None else Some(above.value + [n.value])
  }

  /** Where an object was created: what is staged comes before what is retained. */
  predicate CreatedAs(nodes: Index, overlay: Index, id: ObjId, n: Node) {
    (id in overlay && overlay[id] == n) || (id !in overlay && id in nodes && nodes[id] == n)
  }

  /** The chain lists the creations from just below the root down to the object. */
  predicate LeadsTo(nodes: Index, overlay: Index, chain: seq<Node>, id: ObjId) {
    if chain == [] then id == Root
    else
      var last := chain[|chain| - 1];
      id != Root && CreatedAs(nodes, overlay, id, last) && LeadsTo(nodes, overlay, chain[..|chain| - 1], last.parent)
  }

  /** An object has a creation path exactly if such a chain of at most `limit` creations exists. */
  lemma {:induction false} CreationIff(nodes: Index, overlay: Index, id: ObjId, limit: nat, chain: seq<Node>)
    ensures Creation(nodes, overlay, id, limit) == Some(chain) <==> LeadsTo(nodes, overlay, chain, id) && |chain| <= limit
    decreases limit
  {
    if id != Root && limit > 0 && chain != [] {
      SplitLast(chain);
      CreationIff(nodes, overlay, chain[|chain| - 1].parent, limit - 1, chain[..|chain| - 1]);
    } else if id != Root && limit > 0 {
      var n := NodeAt(nodes, overlay, id);
      if n.Some? {
        var above := Creation(nodes, overlay, n.value.parent, limit - 1);
        if above.Some? { assert |above.value + [n.value]| > 0; }
      }
    }
  }

  /** An operation has a path exactly if its object is at most 64 creations below the root; the path is
      the chain's keys and the operation's own, cut at the first sequence. */
  lemma TargetIff(nodes: Index, overlay: Index, obj: ObjId, key: nat)
    ensures Target(nodes, overlay, obj, key).Some? <==> exists chain :: LeadsTo(nodes, overlay, chain, obj) && |chain| <= 64
    ensures forall chain :: LeadsTo(nodes, overlay, chain, obj) && |chain| <= 64 ==> Target(nodes, overlay, obj, key) == Some(CutPath(chain, key))
  {
    forall chain ensures Creation(nodes, overlay, obj, MAX_CHAIN) == Some(chain) <==> LeadsTo(nodes, overlay, chain, obj) && |chain| <= 64 {
      CreationIff(nodes, overlay, obj, MAX_CHAIN, chain);
    }
  }

  /** The keys along a creation path, cut at the first sequence container. */
  function CutPath(chain: seq<Node>, key: nat): seq<nat> {
    if chain == [] then [key]
    else if chain[0].kind == SequenceKind then [chain[0].key]
    else [chain[0].key] + CutPath(chain[1..], key)
  }

  function Target(nodes: Index, overlay: Index, obj: ObjId, key: nat): Option<seq<nat>> {
    var chain := Creation(nodes, overlay, obj, MAX_CHAIN);
    if chain.None? then None else Some(CutPath(chain.value, key))
  }

  /** A path names the containers above the operation, ending at a sequence or at the key itself. */
  lemma {:induction false} CutPathShape(chain: seq<Node>, key: nat)
    ensures var p := CutPath(chain, key);
      && 1 <= |p| <= |chain| + 1
      && (forall i :: 0 <= i < |p| - 1 ==> p[i] == chain[i].key && chain[i].kind == MapKind)
      && (if |p| <= |chain| && chain[|p| - 1].kind == SequenceKind then p[|p| - 1] == chain[|p| - 1].key
          else |p| == |chain| + 1 && p[|chain|] == key)
  {
    if chain != [] && chain[0].kind != SequenceKind { CutPathShape(chain[1..], key); }
  }

  /** The objects passed so far lead from `obj` to `id`, and what is left is the rest of the chain. */
  ghost predicate Climbed(nodes: Index, overlay: Index, obj: ObjId, chain: seq<Node>, id: ObjId) {
    && |chain| <= MAX_CHAIN
    && Creation(nodes, overlay, obj, MAX_CHAIN)
       == var above := Creation(nodes, overlay, id, MAX_CHAIN - |chain|);
          if above.None? then None else Some(above.value + Reversed(chain))
  }

  function Reversed(s: seq<Node>): seq<Node> { if s == [] then [] else [s[|s| - 1]] + Reversed(s[..|s| - 1]) }

  lemma {:induction false} ReversedAt(s: seq<Node>, k: nat)
    requires k < |s|
    ensures |Reversed(s)| == |s| && Reversed(s)[k] == s[|s| - 1 - k]
  {
    if k > 0 { ReversedAt(s[..|s| - 1], k - 1); } else if |s| > 1 { ReversedAt(s[..|s| - 1], 0); }
  }

  lemma ClimbOnce(nodes: Index, overlay: Index, obj: ObjId, chain: seq<Node>, id: ObjId, n: Node)
    requires Climbed(nodes, overlay, obj, chain, id) && id != Root && NodeAt(nodes, overlay, id) == Some(n)
    requires |chain| < MAX_CHAIN
    ensures Climbed(nodes, overlay, obj, chain + [n], n.parent)
  {
    assert (chain + [n])[..|chain|] == chain;
    var above := Creation(nodes, overlay, n.parent, MAX_CHAIN - |chain| - 1);
    if above.Some? { assert above.value + [n] + Reversed(chain) == above.value + ([n] + Reversed(chain)); }
  }

  /** Climb from an object to the root. A cycle of parents runs into the length limit, so the separate
      cycle test of the source refuses nothing more. */
  method Climb(nodes: Index, overlay: Index, obj: ObjId) returns (chain: Option<seq<Node>>)
    ensures chain.None? <==> Creation(nodes, overlay, obj, MAX_CHAIN).None?
    ensures chain.Some? ==> Some(Reversed(chain.value)) == Creation(nodes, overlay, obj, MAX_CHAIN)
  {
    var passed: seq<Node>, id := [], obj;
    ClimbStart(nodes, overlay, obj);
    while id != Root
      invariant Climbed(nodes, overlay, obj, passed, id)
      decreases MAX_CHAIN - |passed|
    {
      var n := NodeAt(nodes, overlay, id);
      if n.None? || |passed| >= MAX_CHAIN { return None; }
      ClimbOnce(nodes, overlay, obj, passed, id, n.value);
      passed, id := passed + [n.value], n.value.parent;
    }
    assert [] + Reversed(passed) == Reversed(passed);
    chain := Some(passed);
  }

  lemma ClimbStart(nodes: Index, overlay: Index, obj: ObjId)
    ensures Climbed(nodes, overlay, obj, [], obj)
  {
    var above := Creation(nodes, overlay, obj, MAX_CHAIN);
    if above.Some? { assert above.value + [] == above.value; }
  }

  /** Read the keys from the root down, the chain being listed innermost first. */
  method WalkDown(chain: seq<Node>, key: nat) returns (path: seq<nat>)
    ensures path == CutPath(Reversed(chain), key)
  {
    ghost var down := Reversed(chain);
    path := [];
    var index := |chain|;
    assert down[0..] == down;
    ReversedLength(chain);
    while index > 0
      invariant 0 <= index <= |chain| == |down|
      invariant CutPath(down, key) == path + CutPath(down[|chain| - index..], key)
    {
      index := index - 1;
      ReversedAt(chain, |chain| - 1 - index);
      assert down[|chain| - 1 - index] == chain[index];
      assert down[|chain| - 1 - index..][1..] == down[|chain| - index..];
      path := path + [chain[index].key];
      if chain[index].kind == SequenceKind { return; }
    }
    path := path + [key];
  }

  lemma ReversedLength(s: seq<Node>)
    ensures |Reversed(s)| == |s|
  {
    if s != [] { ReversedAt(s, 0); }
  }

  method FindTarget(nodes: Index, overlay: Index, obj: ObjId, key: nat) returns (path: Option<seq<nat>>)
    ensures path == Target(nodes, overlay, obj, key)
  {
    var chain := Climb(nodes, overlay, obj);
    if chain.None? { return None; }
    var keys := WalkDown(chain.value, key);
    path := Some(keys);
  }

  function AllOps(changes: seq<Change>): seq<Op> {
    if changes == [] then [] else AllOps(changes[..|changes| - 1]) + changes[|changes| - 1].ops
  }

  /** The operation is of a known kind and its object's creation is known up to the root. */
  predicate Located(nodes: Index, overlay: Index, op: Op) {
    !op.action.Unsupported? && Target(nodes, overlay, op.obj, op.key).Some?
  }

  ghost predicate AllLocated(nodes: Index, overlay: Index, ops: seq<Op>) {
    forall op :: op in ops ==> Located(nodes, overlay, op)
  }

  ghost function Targets(nodes: Index, overlay: Index, ops: seq<Op>): set<seq<nat>>
    requires AllLocated(nodes, overlay, ops)
  {
    set op | op in ops :: Target(nodes, overlay, op.obj, op.key).value
  }

  /** Report the path of every operation, or fail on the first that has none. */
  method CollectPaths(nodes: Index, overlay: Index, changes: seq<Change>) returns (paths: Option<set<seq<nat>>>)
    ensures paths.Some? <==> AllLocated(nodes, overlay, AllOps(changes))
    ensures paths.Some? ==> paths.value == Targets(nodes, overlay, AllOps(changes))
  {
    var ops: seq<Op> := [];
    for i := 0 to |changes|
      invariant ops == AllOps(changes[..i])
    {
      assert changes[..i + 1][..i] == changes[..i];
      ops := ops + changes[i].ops;
    }
    assert changes[..|changes|] == changes;
    var found: set<seq<nat>> := {};
    for i := 0 to |ops|
      invariant AllLocated(nodes, overlay, ops[..i]) && found == Targets(nodes, overlay, ops[..i])
    {
      assert ops[..i + 1] == ops[..i] + [ops[i]];
      assert ops[i] in ops;
      if ops[i].action.Unsupported? { return None; }
      var path := FindTarget(nodes, overlay, ops[i].obj, ops[i].key);
      if path.None? { return None; }
      TargetsAppend(nodes, overlay, ops[..i], ops[i]);
      found := found + {path.value};
    }
    assert ops[..|ops|] == ops;
    paths := Some(found);
  }

  lemma TargetsAppend(nodes: Index, overlay: Index, ops: seq<Op>, op: Op)
    requires AllLocated(nodes, overlay, ops) && Located(nodes, overlay, op)
    ensures AllLocated(nodes, overlay, ops + [op])
    ensures Targets(nodes, overlay, ops + [op]) == Targets(nodes, overlay, ops) + {Target(nodes, overlay, op.obj, op.key).value}
  {
    var all := ops + [op];
    assert all[|ops|] == op && op in all;
    forall p | p in Targets(nodes, overlay, ops) ensures p in Targets(nodes, overlay, all) {
      var o :| o in ops && p == Target(nodes, overlay, o.obj, o.key).value;
      assert o in all;
    }
  }

  // ---------------------------------------------------------------- the session

  datatype Plan = Plan(base: set<Change>, staged: set<Change>, overlay: Option<Index>, paths: Option<set<seq<nat>>>)

  ghost predicate Retains(index: Index, document: set<Change>) {
    AllBounded(document) && |index| <= MAX_OBJECTS && (UniqueCreations(document) ==> Indexes(index, document))
  }

  lemma UnionSize(a: Index, b: Index)
    ensures |a + b| <= |a| + |b|
  {
    assert (a + b).Keys == a.Keys + b.Keys;
    assert a.Keys + b.Keys == a.Keys + (b.Keys - a.Keys);
    SubsetSize(b.Keys - a.Keys, b.Keys);
    assert |a + b| == |(a + b).Keys| && |a| == |a.Keys| && |b| == |b.Keys|;
  }

  /** An overlay that was accepted extends what is retained. */
  lemma OverlayRetains(index: Index, document: set<Change>, unseen: seq<Change>, overlay: Index)
    requires Retains(index, document) && AddAll(map[], unseen) == Some(overlay) && |index| + |overlay| <= MAX_OBJECTS
    ensures Retains(index + overlay, document + Listed(unseen))
  {
    var staged := document + Listed(unseen);
    AddAllBounds(map[], unseen);
    UnionSize(index, overlay);
    if UniqueCreations(staged) {
      assert UniqueCreations(document) by { assert forall c :: c in document ==> c in staged; }
      RebuildIndexes(unseen);
      UniqueIsConsistent(staged);
      ConsistentAgrees(index, overlay, document, Listed(unseen));
      AcceptIsRebuildIff(index, overlay, document, Listed(unseen));
    }
  }

  /** The overlay of changes the index does not have yet, if they fit. */
  function Overlaid(index: Index, unseen: seq<Change>): Option<Index> {
    var overlay := AddAll(map[], unseen);
    if overlay.Some? && |index| + |overlay.value| <= 262144 then overlay else None
  }

  /** What an inspecting preparation needs: an index, or a history one can be built from; room for the new
      creations; and a path for every new operation. */
  ghost predicate Inspectable(index: Option<Index>, delta: seq<Change>, listing: seq<Change>, document: set<Change>) {
    var base, unseen := if index.Some? then index else AddAll(map[], listing), Filter(delta, document);
    && base.Some? && Overlaid(base.value, unseen).Some?
    && AllLocated(base.value, Overlaid(base.value, unseen).value, AllOps(unseen))
  }

  /** One document session: the visible document, the plan in flight, the retained index. */
  class Session {
    var document: set<Change>
    var active: Option<Plan>
    var closed: bool
    var index: Option<Index>

    /** A retained index stays within its bounds, and is that of the visible document as long as the
        engine numbered objects uniquely; so is what an active plan will install, for the document it
        will show. */
    ghost predicate Valid()
      reads this
    {
      && (index.Some? ==> Retains(index.value, document))
      && (active.Some? ==>
            && active.value.base == document
            && (active.value.overlay.Some? ==>
                  index.Some? && Retains(index.value + active.value.overlay.value, active.value.staged)))
    }

    constructor (initial: set<Change>)
      ensures Valid() && document == initial && active == None && index == None && !closed
    {
      document, active, closed, index := initial, None, false, None;
    }

    /** Build the index of the visible document if there is none. */
    method EnsureIndex(listing: seq<Change>) returns (ok: bool)
      requires Valid() && Listed(listing) == document && active.None?
      modifies this`index
      ensures Valid() && ok == index.Some?
      ensures index == if old(index).Some? then old(index) else AddAll(map[], listing)
    {
      if index.None? {
        var built := AddAll(map[], listing);
        if built.Some? {
          RebuildIndexes(listing);
          AddAllBounds(map[], listing);
        }
        index := built;
      }
      ok := index.Some?;
    }

    /** The overlay of the new changes, if it fits the index. */
    method Overlay(delta: seq<Change>) returns (overlay: Option<Index>)
      requires Valid()
      ensures overlay == if index.Some? then Overlaid(index.value, Filter(delta, document)) else None
      ensures overlay.Some? ==> index.Some? && Retains(index.value + overlay.value, document + Listed(delta))
    {
      if index.None? { return None; }
      var unseen := Filter(delta, document);
      FilterKeeps(delta, document);
      assert document + Listed(unseen) == document + Listed(delta);
      overlay := AddAll(map[], unseen);
      if overlay.None? || |index.value| + |overlay.value| > MAX_OBJECTS { return None; }
      OverlayRetains(index.value, document, unseen, overlay.value);
    }

    /** Build the index if need be and find the path of every new operation. */
    method Inspect(delta: seq<Change>, listing: seq<Change>) returns (plan: Option<Plan>)
      requires Valid() && Listed(listing) == document && active.None?
      modifies this`index
      ensures Valid() && index == if old(index).Some? then old(index) else AddAll(map[], listing)
      ensures plan.Some? <==> Inspectable(old(index), delta, listing, document)
      ensures plan.Some? ==>
                && index.Some? && plan.value.overlay.Some? && plan.value.paths.Some?
                && plan.value.base == document && plan.value.staged == document + Listed(delta)
                && plan.value.overlay == Overlaid(index.value, Filter(delta, document))
                && Retains(index.value + plan.value.overlay.value, plan.value.staged)
                && AllLocated(index.value, plan.value.overlay.value, AllOps(Filter(delta, document)))
                && plan.value.paths.value == Targets(index.value, plan.value.overlay.value, AllOps(Filter(delta, document)))
    {
      var built := EnsureIndex(listing);
      if !built { return None; }
      var overlay := Overlay(delta);
      if overlay.None? { return None; }
      var paths := CollectPaths(index.value, overlay.value, Filter(delta, document));
      if paths.None? { return None; }
      plan := Some(Plan(document, document + Listed(delta), overlay, paths));
    }

    /** Prepare `delta` on the current document; `listing` is how the engine lists the document's
        changes. With `inspect` an index is built first if there is none, and a failing inspection
        fails the preparation; otherwise a failing extension only drops the index at commit. */
    method Stage(delta: seq<Change>, listing: seq<Change>, inspect: bool) returns (ok: bool)
      requires Valid() && Listed(listing) == document
      modifies this
      ensures Valid() && document == old(document) && closed == old(closed)
      ensures old(closed || active.Some?) ==> !ok && active == old(active) && index == old(index)
      ensures ok <==> !old(closed) && old(active).None? && (inspect ==> Inspectable(old(index), delta, listing, document))
      ensures ok ==> active.Some? && active.value.base == document && active.value.staged == document + Listed(delta)
      ensures ok ==> active.value.overlay == if index.Some? then Overlaid(index.value, Filter(delta, document)) else None
      ensures ok && inspect ==>
                && active.value.overlay.Some? && active.value.paths.Some? && index.Some?
                && AllLocated(index.value, active.value.overlay.value, AllOps(Filter(delta, document)))
                && active.value.paths.value == Targets(index.value, active.value.overlay.value, AllOps(Filter(delta, document)))
      ensures index == if inspect && !old(closed) && old(active).None? && old(index).None? then AddAll(map[], listing) else old(index)
      ensures !ok ==> active == old(active)
    {
      if closed || active.Some? { return false; }
      if inspect {
        active := Inspect(delta, listing);
      } else {
        var overlay := Overlay(delta);
        active := Some(Plan(document, document + Listed(delta), overlay, None));
      }
      ok := active.Some?;
    }

    /** Show the staged document and install the extended index, or drop an index that could not be
        extended. */
    method Commit() returns (ok: bool)
      requires Valid()
      modifies this
      ensures Valid() && active == (if ok then None else old(active)) && closed == old(closed)
      ensures ok <==> !old(closed) && old(active).Some?
      ensures document == if ok then old(active).value.staged else old(document)
      ensures index == if !ok then old(index)
                       else if old(active).value.overlay.Some? && old(index).Some? then Some(old(index).value + old(active).value.overlay.value)
                       else None
    {
      if closed || active.None? { return false; }
      var plan := active.value;
      document := plan.staged;
      index := if plan.overlay.Some? && index.Some? then Some(index.value + plan.overlay.value) else None;
      active := None;
      ok := true;
    }

    method Discard()
      requires Valid()
      modifies this
      ensures Valid() && active == None && document == old(document) && index == old(index) && closed == old(closed)
    {
      active := None;
    }

    method Close()
      requires Valid()
      modifies this
      ensures Valid() && closed && active == None && document == old(document) && index == old(index)
    {
      active, closed := None, true;
    }
  }

  /** Changes the document does not have yet. */
  function Filter(delta: seq<Change>, document: set<Change>): seq<Change> {
    if delta == [] then []
    else
      var last := delta[|delta| - 1];
      var front := Filter(delta[..|delta| - 1], document);
      if last in document then front else front + [last]
  }

  lemma {:induction false} FilterKeeps(delta: seq<Change>, document: set<Change>)
    ensures forall c :: c in Filter(delta, document) <==> c in delta && c !in document
  {
    if delta != [] {
      FilterKeeps(delta[..|delta| - 1], document);
      assert delta == delta[..|delta| - 1] + [delta[|delta| - 1]];
    }
  }

  /** So whatever was committed, discarded or failed before, a retained index equals a rebuild from the
      visible document, which succeeds: for every document in which each object was created once, and
      every listing of its changes. */
  lemma RetainedIndexIsRebuild(s: Session, listing: seq<Change>)
    requires s.Valid() && s.index.Some? && Listed(listing) == s.document
    requires NoDuplicates(listing) && UniqueCreations(s.document)
    ensures AddAll(map[], listing) == Some(s.index.value)
  {
    RebuildSucceeds(listing, s.index.value);
  }
}
