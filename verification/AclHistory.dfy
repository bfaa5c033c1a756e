/** Membership as a causal history of writes: when does the member set not depend on the order in
    which the changes were delivered? */
module AclHistory {
  import opened Common

  type Key = nat
  type Hash = nat

  datatype Effect = Add | Remove
  datatype Action = SetTrue | SetOther | Delete

  /** One decoded operation, as far as history validation looks at it. */
  datatype Op =
    | CreateUsers
    | OverwriteUsers
    | Member(key: Key, action: Action, canonicalKey: bool)
    | Other

  datatype Change = Change(hash: Hash, deps: set<Hash>, ops: seq<Op>, seed: bool)
  type History = seq<Change>

  function Hashes(h: History): set<Hash> { set c | c in h :: c.hash }

  /** Each change once, after everything it depends on. */
  predicate Causal(h: History) {
    forall i :: 0 <= i < |h| ==> h[i].hash !in Hashes(h[..i]) && h[i].deps <= Hashes(h[..i])
  }

  /** Change i is change j or one of its ancestors. */
  predicate Leads(h: History, i: nat, j: nat)
    requires i < |h| && j < |h|
    decreases j
  {
    i == j || exists k :: 0 <= k < j && h[k].hash in h[j].deps && Leads(h, i, k)
  }

  function EffectOf(a: Action): Effect { if a == Delete then Remove else Add }

  /** The last write to the key among a change's operations. */
  function Written(ops: seq<Op>, key: Key): Option<Effect> {
    if ops == [] then None
    else
      var last := ops[|ops| - 1];
      if last.Member? && last.key == key then Some(EffectOf(last.action)) else Written(ops[..|ops| - 1], key)
  }

  predicate Writes(c: Change, key: Key) { Written(c.ops, key).Some? }

  /** No later write to the key has this one behind it. */
  predicate Maximal(h: History, key: Key, i: nat)
    requires i < |h|
  {
    && Writes(h[i], key)
    && forall j :: 0 <= j < |h| && j != i && Writes(h[j], key) ==> !Leads(h, i, j)
  }

  /** All causally maximal writes to a key agree. */
  ghost predicate Homogeneous(h: History) {
    forall key, i, j :: 0 <= i < |h| && 0 <= j < |h| && Maximal(h, key, i) && Maximal(h, key, j) ==>
      Written(h[i].ops, key) == Written(h[j].ops, key)
  }

  // ---------------------------------------------------------------- folding a delivery order

  function Touched(c: Change): set<Key> { set o | o in c.ops && o.Member? :: o.key }

  function Deliver(members: set<Key>, c: Change): set<Key> {
    (set k | k in members && Written(c.ops, k) != Some(Remove)) + (set k | k in Touched(c) && Written(c.ops, k) == Some(Add))
  }

  /** The member set after delivering the changes one by one. */
  function Fold(h: History): set<Key> {
    if h == [] then {} else Deliver(Fold(h[..|h| - 1]), h[|h| - 1])
  }

  predicate SameChanges(h: History, p: History) { (forall c :: c in h ==> c in p) && (forall c :: c in p ==> c in h) }

  /** `p` delivers the changes of `h` in some causal order. */
  predicate Delivers(p: History, h: History) { Causal(p) && SameChanges(h, p) }

  ghost predicate OrderIndependent(h: History) {
    forall p :: Delivers(p, h) ==> Fold(p) == Fold(h)
  }

  // ---------------------------------------------------------------- basic lemmas

  lemma {:induction false} WrittenIsTouched(ops: seq<Op>, key: Key)
    requires Written(ops, key).Some?
    ensures exists o :: o in ops && o.Member? && o.key == key
  {
    var last := ops[|ops| - 1];
    if last.Member? && last.key == key {
      assert last in ops;
    } else {
      WrittenIsTouched(ops[..|ops| - 1], key);
      var o :| o in ops[..|ops| - 1] && o.Member? && o.key == key;
      assert o in ops;
    }
  }

  lemma {:induction false} LeadsForward(h: History, i: nat, j: nat)
    requires i < |h| && j < |h| && Leads(h, i, j)
    ensures i <= j
    decreases j
  {
    if i != j {
      var k :| 0 <= k < j && h[k].hash in h[j].deps && Leads(h, i, k);
      LeadsForward(h, i, k);
    }
  }

  lemma HashesDistinct(h: History)
    requires Causal(h)
    ensures forall i, j :: 0 <= i < j < |h| ==> h[i].hash != h[j].hash
  {
    forall i, j | 0 <= i < j < |h| ensures h[i].hash != h[j].hash {
      assert h[..j][i] == h[i];
      assert h[i].hash in Hashes(h[..j]);
    }
  }

  lemma DistinctHashes(h: History, i: nat, j: nat)
    requires Causal(h) && i < |h| && j < |h| && h[i].hash == h[j].hash
    ensures i == j
  {
    HashesDistinct(h);
  }

  lemma DependencyIndex(h: History, j: nat, d: Hash) returns (k: nat)
    requires Causal(h) && j < |h| && d in h[j].deps
    ensures k < j && h[k].hash == d
  {
    var c :| c in h[..j] && c.hash == d;
    k :| k < j && h[..j][k] == c;
  }

  /** Causality does not depend on the order the changes are listed in. */
  lemma {:induction false} LeadsIsIntrinsic(h: History, p: History, i: nat, j: nat, i': nat, j': nat)
    requires Causal(h) && Delivers(p, h)
    requires i < |h| && j < |h| && i' < |p| && j' < |p| && p[i'] == h[i] && p[j'] == h[j]
    requires Leads(h, i, j)
    ensures Leads(p, i', j')
    decreases j
  {
    if i == j {
      DistinctHashes(p, i', j');
    } else {
      var k :| 0 <= k < j && h[k].hash in h[j].deps && Leads(h, i, k);
      var k' := DependencyIndex(p, j', h[k].hash);
      assert h[k] in p && p[k'] in h;
      var m :| 0 <= m < |h| && h[m] == p[k'];
      DistinctHashes(h, k, m);
      LeadsIsIntrinsic(h, p, i, k, i', k');
    }
  }

  lemma MaximalIsIntrinsic(h: History, p: History, key: Key, i: nat, i': nat)
    requires Causal(h) && Delivers(p, h) && i < |h| && i' < |p| && p[i'] == h[i]
    requires Maximal(p, key, i')
    ensures Maximal(h, key, i)
  {
    forall j | 0 <= j < |h| && j != i && Writes(h[j], key) ensures !Leads(h, i, j) {
      assert h[j] in p;
      var j' :| 0 <= j' < |p| && p[j'] == h[j];
      HashesDistinct(h);
      if Leads(h, i, j) { LeadsIsIntrinsic(h, p, i, j, i', j'); }
    }
  }

  // ---------------------------------------------------------------- the last writer decides

  /** `i` is the last writer of the key in the listed order. */
  predicate LastWriter(h: History, key: Key, i: nat)
    requires i < |h|
  {
    Writes(h[i], key) && forall j :: i < j < |h| ==> !Writes(h[j], key)
  }

  lemma EffectCases(e: Effect)
    ensures e == Add || e == Remove
  {}

  lemma DeliverKey(members: set<Key>, c: Change, key: Key)
    ensures key in Deliver(members, c) <==>
              (if Writes(c, key) then Written(c.ops, key) == Some(Add) else key in members)
  {
    if Writes(c, key) {
      WrittenIsTouched(c.ops, key);
      assert key in Touched(c);
      EffectCases(Written(c.ops, key).value);
    }
  }

  lemma {:induction false} LastWriterDecides(h: History, key: Key, i: nat)
    requires i < |h| && LastWriter(h, key, i)
    ensures key in Fold(h) <==> Written(h[i].ops, key) == Some(Add)
    decreases |h|
  {
    DeliverKey(Fold(h[..|h| - 1]), h[|h| - 1], key);
    if i < |h| - 1 { LastWriterDecides(h[..|h| - 1], key, i); }
  }

  lemma {:induction false} NoWriterNoMember(h: History, key: Key)
    requires forall j :: 0 <= j < |h| ==> !Writes(h[j], key)
    ensures key !in Fold(h)
  {
    if h != [] {
      DeliverKey(Fold(h[..|h| - 1]), h[|h| - 1], key);
      NoWriterNoMember(h[..|h| - 1], key);
    }
  }

  lemma {:induction false} FindLastWriter(h: History, key: Key, n: nat) returns (i: nat)
    requires n <= |h| && exists j :: 0 <= j < n && Writes(h[j], key)
    requires forall j :: n <= j < |h| ==> !Writes(h[j], key)
    ensures i < |h| && LastWriter(h, key, i)
  {
    if Writes(h[n - 1], key) { i := n - 1; } else { i := FindLastWriter(h, key, n - 1); }
  }

  lemma LastWriterIsMaximal(h: History, key: Key, i: nat)
    requires i < |h| && LastWriter(h, key, i)
    ensures Maximal(h, key, i)
  {
    forall j | 0 <= j < |h| && j != i && Writes(h[j], key) ensures !Leads(h, i, j) {
      if Leads(h, i, j) { LeadsForward(h, i, j); }
    }
  }

  /** Agreeing frontiers: every causal delivery order gives the same members. */
  lemma HomogeneousIsOrderIndependent(h: History, p: History)
    requires Causal(h) && Homogeneous(h) && Delivers(p, h)
    ensures Fold(p) == Fold(h)
  {
    forall key ensures key in Fold(p) <==> key in Fold(h) { KeyIsOrderIndependent(h, p, key); }
  }

  lemma KeyIsOrderIndependent(h: History, p: History, key: Key)
    requires Causal(h) && Homogeneous(h) && Delivers(p, h)
    ensures key in Fold(p) <==> key in Fold(h)
  {
    if exists j :: 0 <= j < |h| && Writes(h[j], key) {
      var j :| 0 <= j < |h| && Writes(h[j], key);
      assert h[j] in p;
      var a := FindLastWriter(h, key, |h|);
      var b := FindLastWriter(p, key, |p|);
      LastWriterDecides(h, key, a);
      LastWriterDecides(p, key, b);
      LastWriterIsMaximal(h, key, a);
      LastWriterIsMaximal(p, key, b);
      assert p[b] in h;
      var c :| 0 <= c < |h| && h[c] == p[b];
      MaximalIsIntrinsic(h, p, key, c, b);
    } else {
      NoWriterNoMember(h, key);
      forall j | 0 <= j < |p| ensures !Writes(p[j], key) { assert p[j] in h; }
      NoWriterNoMember(p, key);
    }
  }

  // ---------------------------------------------------------------- and only then

  /** The first n changes that do, or do not, descend from change w, in order. */
  function Part(h: History, w: nat, descends: bool, n: nat): History
    requires w < |h| && n <= |h|
  {
    if n == 0 then []
    else if Leads(h, w, n - 1) == descends then Part(h, w, descends, n - 1) + [h[n - 1]]
    else Part(h, w, descends, n - 1)
  }

  /** Hold change w and its descendants back until everything else was delivered. */
  function Postponed(h: History, w: nat): History
    requires w < |h|
  {
    Part(h, w, false, |h|) + Part(h, w, true, |h|)
  }

  lemma {:induction false} PartHas(h: History, w: nat, descends: bool, n: nat, k: nat)
    requires w < |h| && k < n <= |h| && Leads(h, w, k) == descends
    ensures h[k] in Part(h, w, descends, n)
  {
    if k < n - 1 { PartHas(h, w, descends, n - 1, k); }
  }

  lemma {:induction false} PartFrom(h: History, w: nat, descends: bool, n: nat, c: Change) returns (k: nat)
    requires w < |h| && n <= |h| && c in Part(h, w, descends, n)
    ensures k < n && h[k] == c && Leads(h, w, k) == descends
  {
    if c in Part(h, w, descends, n - 1) { k := PartFrom(h, w, descends, n - 1, c); } else { k := n - 1; }
  }

  lemma CausalAppend(h: History, c: Change)
    requires Causal(h) && c.hash !in Hashes(h) && c.deps <= Hashes(h)
    ensures Causal(h + [c])
  {
    forall i | 0 <= i < |h + [c]| ensures (h + [c])[i].hash !in Hashes((h + [c])[..i]) && (h + [c])[i].deps <= Hashes((h + [c])[..i]) {
      assert (h + [c])[..i] == h[..i];
      if i == |h| { assert h[..i] == h; }
    }
  }

  /** Putting change k behind what is already delivered keeps the order causal. */
  lemma NextIsCausal(h: History, q: History, k: nat)
    requires Causal(h) && Causal(q) && k < |h|
    requires forall c :: c in q ==> c.hash != h[k].hash
    requires forall m :: 0 <= m < k && h[m].hash in h[k].deps ==> h[m] in q
    ensures Causal(q + [h[k]])
  {
    forall d | d in h[k].deps ensures d in Hashes(q) {
      var m := DependencyIndex(h, k, d);
      assert h[m] in q;
    }
    CausalAppend(q, h[k]);
  }

  lemma {:induction false} FirstPartIsCausal(h: History, w: nat, n: nat)
    requires Causal(h) && w < |h| && n <= |h|
    ensures Causal(Part(h, w, false, n))
  {
    if n > 0 {
      FirstPartIsCausal(h, w, n - 1);
      if !Leads(h, w, n - 1) { FirstPartNext(h, w, n - 1); }
    }
  }

  lemma FirstPartNext(h: History, w: nat, k: nat)
    requires Causal(h) && w < |h| && k < |h| && !Leads(h, w, k) && Causal(Part(h, w, false, k))
    ensures Causal(Part(h, w, false, k) + [h[k]])
  {
    var q := Part(h, w, false, k);
    HashesDistinct(h);
    forall c | c in q ensures c.hash != h[k].hash { var m := PartFrom(h, w, false, k, c); }
    forall m | 0 <= m < k && h[m].hash in h[k].deps ensures h[m] in q {
      assert !Leads(h, w, m);
      PartHas(h, w, false, k, m);
    }
    NextIsCausal(h, q, k);
  }

  lemma {:induction false} SecondPartIsCausal(h: History, w: nat, n: nat)
    requires Causal(h) && w < |h| && n <= |h|
    ensures Causal(Part(h, w, false, |h|) + Part(h, w, true, n))
  {
    var first := Part(h, w, false, |h|);
    if n == 0 {
      FirstPartIsCausal(h, w, |h|);
      assert first + [] == first;
    } else {
      SecondPartIsCausal(h, w, n - 1);
      if Leads(h, w, n - 1) {
        SecondPartNext(h, w, n - 1);
        assert first + Part(h, w, true, n - 1) + [h[n - 1]] == first + Part(h, w, true, n);
      }
    }
  }

  lemma SecondPartNext(h: History, w: nat, k: nat)
    requires Causal(h) && w < |h| && k < |h| && Leads(h, w, k)
    requires Causal(Part(h, w, false, |h|) + Part(h, w, true, k))
    ensures Causal(Part(h, w, false, |h|) + Part(h, w, true, k) + [h[k]])
  {
    var q := Part(h, w, false, |h|) + Part(h, w, true, k);
    HashesDistinct(h);
    forall c: Change | c in q ensures c.hash != h[k].hash { NotYetDelivered(h, w, k, c); }
    forall m | 0 <= m < k && h[m].hash in h[k].deps ensures h[m] in q {
      if Leads(h, w, m) { PartHas(h, w, true, k, m); } else { PartHas(h, w, false, |h|, m); }
    }
    NextIsCausal(h, q, k);
  }

  lemma NotYetDelivered(h: History, w: nat, k: nat, c: Change)
    requires forall i, j :: 0 <= i < j < |h| ==> h[i].hash != h[j].hash
    requires w < |h| && k < |h| && Leads(h, w, k)
    requires c in Part(h, w, false, |h|) + Part(h, w, true, k)
    ensures c.hash != h[k].hash
  {
    if c in Part(h, w, false, |h|) { var m := PartFrom(h, w, false, |h|, c); } else { var m := PartFrom(h, w, true, k, c); }
  }

  lemma PostponedDelivers(h: History, w: nat)
    requires Causal(h) && w < |h|
    ensures Delivers(Postponed(h, w), h)
  {
    SecondPartIsCausal(h, w, |h|);
    var first, second := Part(h, w, false, |h|), Part(h, w, true, |h|);
    forall c | c in h ensures c in Postponed(h, w) {
      var k :| 0 <= k < |h| && h[k] == c;
      if Leads(h, w, k) { PartHas(h, w, true, |h|, k); } else { PartHas(h, w, false, |h|, k); }
    }
    forall c | c in Postponed(h, w) ensures c in h {
      if c in first { var m := PartFrom(h, w, false, |h|, c); } else { var m := PartFrom(h, w, true, |h|, c); }
    }
  }

  /** Held back, a maximal write is the last write to its key. */
  lemma {:induction false} PostponedDecides(h: History, w: nat, key: Key, n: nat)
    requires w < n <= |h| && Maximal(h, key, w)
    ensures key in Fold(Part(h, w, false, |h|) + Part(h, w, true, n)) <==> Written(h[w].ops, key) == Some(Add)
  {
    var q := Part(h, w, false, |h|) + Part(h, w, true, n - 1);
    if n - 1 > w { PostponedDecides(h, w, key, n - 1); }
    if Leads(h, w, n - 1) {
      assert Part(h, w, false, |h|) + Part(h, w, true, n) == q + [h[n - 1]];
      FoldAppend(q, h[n - 1], key);
    }
  }

  lemma FoldAppend(q: History, c: Change, key: Key)
    ensures key in Fold(q + [c]) <==> if Writes(c, key) then Written(c.ops, key) == Some(Add) else key in Fold(q)
  {
    assert (q + [c])[..|q|] == q;
    DeliverKey(Fold(q), c, key);
  }

  lemma PostponedMember(h: History, w: nat, key: Key)
    requires Causal(h) && OrderIndependent(h) && w < |h| && Maximal(h, key, w)
    ensures key in Fold(h) <==> Written(h[w].ops, key) == Some(Add)
  {
    PostponedDelivers(h, w);
    PostponedDecides(h, w, key, |h|);
  }

  lemma OrderIndependentIsHomogeneous(h: History)
    requires Causal(h) && OrderIndependent(h)
    ensures Homogeneous(h)
  {
    forall key, i, j | 0 <= i < |h| && 0 <= j < |h| && Maximal(h, key, i) && Maximal(h, key, j)
      ensures Written(h[i].ops, key) == Written(h[j].ops, key)
    {
      PostponedMember(h, i, key);
      PostponedMember(h, j, key);
      EffectCases(Written(h[i].ops, key).value);
      EffectCases(Written(h[j].ops, key).value);
    }
  }

  /** Rejecting mixed frontiers is exactly what makes membership independent of delivery order. */
  lemma HomogeneousIffOrderIndependent(h: History)
    requires Causal(h)
    ensures Homogeneous(h) <==> OrderIndependent(h)
  {
    if Homogeneous(h) {
      forall p | Delivers(p, h) ensures Fold(p) == Fold(h) { HomogeneousIsOrderIndependent(h, p); }
    }
    if OrderIndependent(h) { OrderIndependentIsHomogeneous(h); }
  }

  // ---------------------------------------------------------------- one change, spelled out

  /** Operation k is the last of the change to write the key. */
  predicate LastWriteAt(ops: seq<Op>, key: Key, k: nat) {
    && k < |ops| && ops[k].Member? && ops[k].key == key
    && forall l :: k < l < |ops| ==> !(ops[l].Member? && ops[l].key == key)
  }

  /** A change writes a key if some operation does; its last one decides, and only a deletion removes. */
  lemma {:induction false} WrittenIs(ops: seq<Op>, key: Key)
    ensures Written(ops, key).Some? <==> exists o :: o in ops && o.Member? && o.key == key
    ensures Written(ops, key).Some? <==> exists k :: 0 <= k < |ops| && LastWriteAt(ops, key, k)
    ensures forall k :: 0 <= k < |ops| && LastWriteAt(ops, key, k) ==>
              Written(ops, key) == Some(if ops[k].action.Delete? then Remove else Add)
  {
    if ops != [] {
      var front, last := ops[..|ops| - 1], ops[|ops| - 1];
      SplitLast(ops);
      WrittenIs(front, key);
      if last.Member? && last.key == key {
        assert LastWriteAt(ops, key, |ops| - 1);
      } else {
        forall k | 0 <= k < |front| ensures LastWriteAt(ops, key, k) <==> LastWriteAt(front, key, k) {
          assert front[k] == ops[k];
          assert forall l :: k < l < |front| ==> front[l] == ops[l];
        }
        if k :| 0 <= k < |front| && LastWriteAt(front, key, k) { assert LastWriteAt(ops, key, k); }
      }
    }
  }

  /** After a change a key is a member exactly if the last write to it was no deletion, or if it was a
      member and the change does not write it. */
  lemma DeliverIs(members: set<Key>, c: Change, key: Key)
    ensures key in Deliver(members, c) <==>
              if exists k :: 0 <= k < |c.ops| && LastWriteAt(c.ops, key, k)
              then exists k :: 0 <= k < |c.ops| && LastWriteAt(c.ops, key, k) && !c.ops[k].action.Delete?
              else key in members
  {
    WrittenIs(c.ops, key);
  }
}
