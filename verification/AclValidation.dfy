/** The validation loop over an ACL history: ancestor sets, per-key frontiers, rejection of mixed
    ones. */
module AclValidation {
  import opened Common
  import opened AclHistory

  /** One surviving write to a key. */
  datatype KeyWrite = KeyWrite(index: nat, effect: Effect)
  type Frontiers = map<Key, seq<KeyWrite>>

  function AncestrySet(h: History, k: nat): set<nat>
    requires k < |h|
  {
    set m | 0 <= m <= k && Leads(h, m, k)
  }

  function Surviving(frontier: seq<KeyWrite>, ancestry: set<nat>): seq<KeyWrite> {
    if frontier == [] then []
    else
      var last := frontier[|frontier| - 1];
      var before := Surviving(frontier[..|frontier| - 1], ancestry);
      if last.index in ancestry then before else before + [last]
  }

  /** The writes kept for a key after the first n changes. */
  function Frontier(h: History, key: Key, n: nat): seq<KeyWrite>
    requires n <= |h|
  {
    if n == 0 then []
    else if Writes(h[n - 1], key) then
      Surviving(Frontier(h, key, n - 1), AncestrySet(h, n - 1)) + [KeyWrite(n - 1, Written(h[n - 1].ops, key).value)]
    else Frontier(h, key, n - 1)
  }

  predicate MaximalAmong(h: History, key: Key, i: nat, n: nat)
    requires i < n <= |h|
  {
    && Writes(h[i], key)
    && forall j :: 0 <= j < n && j != i && Writes(h[j], key) ==> !Leads(h, i, j)
  }

  lemma {:induction false} SurvivingKeeps(frontier: seq<KeyWrite>, ancestry: set<nat>)
    ensures forall w :: w in Surviving(frontier, ancestry) <==> w in frontier && w.index !in ancestry
  {
    if frontier != [] {
      var front, last := frontier[..|frontier| - 1], frontier[|frontier| - 1];
      assert frontier == front + [last];
      SurvivingKeeps(front, ancestry);
    }
  }

  /** The kept writes are exactly the causally maximal ones, each with its effect. */
  lemma {:induction false} FrontierIsMaximal(h: History, key: Key, n: nat, w: KeyWrite)
    requires n <= |h|
    ensures w in Frontier(h, key, n) <==>
              w.index < n && MaximalAmong(h, key, w.index, n) && Written(h[w.index].ops, key) == Some(w.effect)
  {
    if n > 0 {
      FrontierIsMaximal(h, key, n - 1, w);
      SurvivingKeeps(Frontier(h, key, n - 1), AncestrySet(h, n - 1));
      if w.index == n - 1 { NewestIsMaximal(h, n - 1); }
    }
  }

  lemma NewestIsMaximal(h: History, i: nat)
    requires i < |h|
    ensures forall j :: 0 <= j < i ==> !Leads(h, i, j)
  {
    forall j | 0 <= j < i ensures !Leads(h, i, j) {
      if Leads(h, i, j) { LeadsForward(h, i, j); }
    }
  }

  predicate Uniform(frontier: seq<KeyWrite>) {
    forall i :: 0 <= i < |frontier| ==> frontier[i].effect == frontier[0].effect
  }

  lemma UniformAgrees(h: History, key: Key, i: nat)
    requires i < |h| && Maximal(h, key, i) && Uniform(Frontier(h, key, |h|))
    ensures Frontier(h, key, |h|) != [] && Written(h[i].ops, key) == Some(Frontier(h, key, |h|)[0].effect)
  {
    var f, w := Frontier(h, key, |h|), KeyWrite(i, Written(h[i].ops, key).value);
    FrontierIsMaximal(h, key, |h|, w);
    var n :| 0 <= n < |f| && f[n] == w;
  }

  ghost predicate AllUniformFrontiers(h: History) {
    forall key: Key :: Uniform(Frontier(h, key, |h|))
  }

  lemma UniformGivesHomogeneous(h: History)
    requires AllUniformFrontiers(h)
    ensures Homogeneous(h)
  {
    forall key, i, j | 0 <= i < |h| && 0 <= j < |h| && Maximal(h, key, i) && Maximal(h, key, j)
      ensures Written(h[i].ops, key) == Written(h[j].ops, key)
    {
      UniformAgrees(h, key, i);
      UniformAgrees(h, key, j);
    }
  }

  lemma HomogeneousGivesUniform(h: History)
    requires Homogeneous(h)
    ensures AllUniformFrontiers(h)
  {
    forall key: Key ensures Uniform(Frontier(h, key, |h|)) {
      var f := Frontier(h, key, |h|);
      forall i | 0 <= i < |f| ensures f[i].effect == f[0].effect {
        FrontierIsMaximal(h, key, |h|, f[i]);
        FrontierIsMaximal(h, key, |h|, f[0]);
        assert Maximal(h, key, f[i].index) && Maximal(h, key, f[0].index);
      }
    }
  }

  /** Uniform kept writes for every key are the same as agreeing maximal writes. */
  lemma UniformIffHomogeneous(h: History)
    ensures AllUniformFrontiers(h) <==> Homogeneous(h)
  {
    if AllUniformFrontiers(h) { UniformGivesHomogeneous(h); }
    if Homogeneous(h) { HomogeneousGivesUniform(h); }
  }

  // ---------------------------------------------------------------- what validation accepts

  function Creations(ops: seq<Op>): nat {
    if ops == [] then 0 else Creations(ops[..|ops| - 1]) + if ops[|ops| - 1].CreateUsers? then 1 else 0
  }

  function AllCreations(h: History): nat {
    if h == [] then 0 else AllCreations(h[..|h| - 1]) + Creations(h[|h| - 1].ops)
  }

  /** Whether the last change that created the users root is the canonical seed. */
  function RootIsCanonical(h: History): bool {
    if h == [] then false
    else if Creations(h[|h| - 1].ops) > 0 then h[|h| - 1].seed
    else RootIsCanonical(h[..|h| - 1])
  }

  predicate ValidWrite(o: Op) { o.Member? ==> o.canonicalKey && o.action != SetOther }

  predicate OpsValid(ops: seq<Op>, known: bool) {
    forall i :: 0 <= i < |ops| ==> !ops[i].OverwriteUsers? && (known ==> ValidWrite(ops[i]))
  }

  /** One canonical users root, only valid membership writes, no mixed frontier. */
  ghost predicate HistoryValid(h: History) {
    var known := AllCreations(h) > 0;
    && (forall i :: 0 <= i < |h| ==> OpsValid(h[i].ops, known))
    && AllCreations(h) <= 1
    && (known ==> RootIsCanonical(h) && Homogeneous(h))
  }

  // ---------------------------------------------------------------- the loops

  /** Ancestors of change i from the sets recorded for its dependencies. */
  method CollectAncestry(h: History, byHash: map<Hash, set<nat>>, i: nat) returns (ancestry: set<nat>)
    requires Causal(h) && i < |h|
    requires forall k :: 0 <= k < i ==> h[k].hash in byHash && byHash[h[k].hash] == AncestrySet(h, k)
    ensures ancestry == AncestrySet(h, i)
  {
    ancestry := {i};
    var left := h[i].deps;
    while left != {}
      invariant left <= h[i].deps
      invariant i in ancestry
      invariant forall m :: m in ancestry ==> m <= i && Leads(h, m, i)
      invariant forall k, m :: 0 <= k < i && h[k].hash in h[i].deps - left && m in AncestrySet(h, k) ==> m in ancestry
      decreases left
    {
      var d :| d in left;
      var k := FindDependency(h, i, d);
      HashesDistinct(h);
      ancestry, left := ancestry + byHash[d], left - {d};
    }
    forall m | m in AncestrySet(h, i) ensures m in ancestry {
      if m != i {
        var k :| 0 <= k < i && h[k].hash in h[i].deps && Leads(h, m, k);
        LeadsForward(h, m, k);
        assert m in AncestrySet(h, k);
      }
    }
  }

  method FindDependency(h: History, i: nat, d: Hash) returns (k: nat)
    requires Causal(h) && i < |h| && d in h[i].deps
    ensures k < i && h[k].hash == d
  {
    ghost var found := DependencyIndex(h, i, d);
    k :| k < i && h[k].hash == d;
  }

  /** Check the operations of one change and collect its last write to each key. */
  method CollectWrites(ops: seq<Op>, known: bool) returns (ok: bool, writes: map<Key, Effect>, created: nat)
    ensures ok <==> OpsValid(ops, known)
    ensures ok ==> created == Creations(ops)
    ensures ok && known ==> forall key :: Written(ops, key) == if key in writes then Some(writes[key]) else None
  {
    writes, created := map[], 0;
    for i := 0 to |ops|
      invariant OpsValid(ops[..i], known)
      invariant created == Creations(ops[..i])
      invariant known ==> forall key :: Written(ops[..i], key) == if key in writes then Some(writes[key]) else None
    {
      assert ops[..i + 1][..i] == ops[..i];
      var o := ops[i];
      if o.OverwriteUsers? || (known && !ValidWrite(o)) { return false, writes, created; }
      if o.CreateUsers? { created := created + 1; }
      if known && o.Member? { writes := writes[o.key := EffectOf(o.action)]; }
    }
    assert ops[..|ops|] == ops;
    ok := true;
  }

  /** Replace the frontier of every key a change writes. */
  method UpdateFrontiers(h: History, i: nat, frontiers: Frontiers, writes: map<Key, Effect>, ancestry: set<nat>)
    returns (after: Frontiers)
    requires i < |h| && ancestry == AncestrySet(h, i)
    requires forall key :: Frontier(h, key, i) == if key in frontiers then frontiers[key] else []
    requires forall key :: Written(h[i].ops, key) == if key in writes then Some(writes[key]) else None
    ensures forall key :: Frontier(h, key, i + 1) == if key in after then after[key] else []
  {
    after := frontiers;
    var left := writes.Keys;
    while left != {}
      invariant left <= writes.Keys
      invariant forall key :: (if key in after then after[key] else [])
                  == if key in left then Frontier(h, key, i) else Frontier(h, key, i + 1)
      decreases left
    {
      var key :| key in left;
      var frontier := if key in after then after[key] else [];
      after := after[key := Surviving(frontier, ancestry) + [KeyWrite(i, writes[key])]];
      left := left - {key};
    }
  }

  /** Whether any kept write disagrees with the first one for its key. */
  method AllUniform(frontiers: Frontiers) returns (ok: bool)
    ensures ok <==> forall key :: key in frontiers ==> Uniform(frontiers[key])
  {
    var left := frontiers.Keys;
    while left != {}
      invariant left <= frontiers.Keys
      invariant forall key :: key in frontiers && key !in left ==> Uniform(frontiers[key])
      decreases left
    {
      var key :| key in left;
      if !Uniform(frontiers[key]) { return false; }
      left := left - {key};
    }
    ok := true;
  }

  method CountCreations(h: History) returns (n: nat)
    ensures n == AllCreations(h)
  {
    n := 0;
    for i := 0 to |h|
      invariant n == AllCreations(h[..i])
    {
      assert h[..i + 1][..i] == h[..i];
      n := n + Creations(h[i].ops);
    }
    assert h[..|h|] == h;
  }

  /** What the loop knows after n changes. */
  ghost predicate Scanned(h: History, n: nat, known: bool, byHash: map<Hash, set<nat>>, frontiers: Frontiers, creations: nat, canonical: bool)
    requires n <= |h|
  {
    && (forall k :: 0 <= k < n ==> OpsValid(h[k].ops, known))
    && creations == AllCreations(h[..n]) && canonical == RootIsCanonical(h[..n])
    && (forall k :: 0 <= k < n ==> h[k].hash in byHash && byHash[h[k].hash] == AncestrySet(h, k))
    && (known ==> forall key :: Frontier(h, key, n) == if key in frontiers then frontiers[key] else [])
  }

  lemma CreationsOn(h: History, n: nat)
    requires n < |h|
    ensures AllCreations(h[..n + 1]) == AllCreations(h[..n]) + Creations(h[n].ops)
    ensures RootIsCanonical(h[..n + 1]) == if Creations(h[n].ops) > 0 then h[n].seed else RootIsCanonical(h[..n])
  {
    assert h[..n + 1][..n] == h[..n];
  }

  /** What the checks after the loop decide. */
  lemma ScanDecides(h: History, byHash: map<Hash, set<nat>>, frontiers: Frontiers, creations: nat, canonical: bool)
    requires Scanned(h, |h|, AllCreations(h) > 0, byHash, frontiers, creations, canonical)
    ensures HistoryValid(h) <==>
              creations <= 1 && (creations > 0 ==> canonical && forall key :: key in frontiers ==> Uniform(frontiers[key]))
  {
    assert h[..|h|] == h;
    UniformIffHomogeneous(h);
    if AllCreations(h) > 0 { UniformFrontiers(h, frontiers); }
  }

  lemma UniformFrontiers(h: History, frontiers: Frontiers)
    requires forall key :: Frontier(h, key, |h|) == if key in frontiers then frontiers[key] else []
    ensures AllUniformFrontiers(h) <==> forall key :: key in frontiers ==> Uniform(frontiers[key])
  {
    if forall key :: key in frontiers ==> Uniform(frontiers[key]) {
      forall key: Key ensures Uniform(Frontier(h, key, |h|)) { if key !in frontiers { assert Frontier(h, key, |h|) == []; } }
    }
    if AllUniformFrontiers(h) {
      forall key | key in frontiers ensures Uniform(frontiers[key]) { assert Frontier(h, key, |h|) == frontiers[key]; }
    }
  }

  /** Accept a dependency-ordered history exactly when it is valid. `known` says whether the
      materialised document has a users root. */
  method ValidateHistory(h: History) returns (ok: bool)
    requires Causal(h)
    ensures ok <==> HistoryValid(h)
  {
    var total := CountCreations(h);
    var known := total > 0;
    var byHash: map<Hash, set<nat>>, frontiers: Frontiers := map[], map[];
    var creations, canonical := 0, false;
    for i := 0 to |h|
      invariant Scanned(h, i, known, byHash, frontiers, creations, canonical)
    {
      CreationsOn(h, i);
      HashesDistinct(h);
      var ancestry := CollectAncestry(h, byHash, i);
      byHash := byHash[h[i].hash := ancestry];
      var valid, writes, created := CollectWrites(h[i].ops, known);
      if !valid { return false; }
      creations := creations + created;
      if created > 0 { canonical := h[i].seed; }
      if known { frontiers := UpdateFrontiers(h, i, frontiers, writes, ancestry); }
    }
    ScanDecides(h, byHash, frontiers, creations, canonical);
    assert h[..|h|] == h;
    if creations > 1 { return false; }
    if !known { return true; }
    if !canonical { return false; }
    ok := AllUniform(frontiers);
  }

  // ---------------------------------------------------------------- what validity means, spelled out

  predicate Creates(h: History, i: nat, k: nat) { i < |h| && k < |h[i].ops| && h[i].ops[k].CreateUsers? }

  lemma {:induction false} CreationsCount(ops: seq<Op>)
    ensures Creations(ops) == 0 <==> forall k :: 0 <= k < |ops| ==> !ops[k].CreateUsers?
    ensures Creations(ops) <= 1 <==> forall k, l :: 0 <= k < l < |ops| ==> !(ops[k].CreateUsers? && ops[l].CreateUsers?)
  {
    if ops != [] {
      var front := ops[..|ops| - 1];
      CreationsCount(front);
      assert forall k :: 0 <= k < |front| ==> front[k] == ops[k];
      if Creations(front) > 0 {
        var k :| 0 <= k < |front| && front[k].CreateUsers?;
        assert ops[k].CreateUsers?;
      }
    }
  }

  /** Two different places where the users root is created. */
  predicate TwoCreations(h: History, i: nat, k: nat, j: nat, l: nat) { Creates(h, i, k) && Creates(h, j, l) && (i, k) != (j, l) }

  ghost predicate SomeCreation(h: History) { exists i: nat, k: nat :: Creates(h, i, k) }

  ghost predicate ManyCreations(h: History) { exists i: nat, k: nat, j: nat, l: nat :: TwoCreations(h, i, k, j, l) }

  lemma CreatesInFront(h: History, i: nat, k: nat)
    requires h != []
    ensures Creates(h, i, k) <==> if i == |h| - 1 then k < |h[i].ops| && h[i].ops[k].CreateUsers? else Creates(h[..|h| - 1], i, k)
  {}

  lemma {:induction false} AllCreationsCount(h: History)
    ensures AllCreations(h) > 0 <==> SomeCreation(h)
    ensures AllCreations(h) > 1 <==> ManyCreations(h)
  {
    if h != [] {
      var front, last := h[..|h| - 1], h[|h| - 1];
      AllCreationsCount(front);
      CreationsCount(last.ops);
      forall i: nat, k: nat ensures Creates(h, i, k) <==> if i == |h| - 1 then k < |last.ops| && last.ops[k].CreateUsers? else Creates(front, i, k) {
        CreatesInFront(h, i, k);
      }
      if SomeCreation(front) {
        var i: nat, k: nat :| Creates(front, i, k);
        assert Creates(h, i, k);
        if ManyCreations(front) {
          var a: nat, b: nat, c: nat, d: nat :| TwoCreations(front, a, b, c, d);
          assert TwoCreations(h, a, b, c, d);
        }
        if Creations(last.ops) > 0 {
          var l :| 0 <= l < |last.ops| && last.ops[l].CreateUsers?;
          assert TwoCreations(h, i, k, |h| - 1, l);
        }
      }
      if Creations(last.ops) > 0 {
        var l :| 0 <= l < |last.ops| && last.ops[l].CreateUsers?;
        assert Creates(h, |h| - 1, l);
        if Creations(last.ops) > 1 {
          var a, b :| 0 <= a < b < |last.ops| && last.ops[a].CreateUsers? && last.ops[b].CreateUsers?;
          assert TwoCreations(h, |h| - 1, a, |h| - 1, b);
        }
      }
      if ManyCreations(h) && AllCreations(h) <= 1 {
        var a: nat, b: nat, c: nat, d: nat :| TwoCreations(h, a, b, c, d);
        OneIsInFront(h, a, b, c, d);
        assert false;
      }
    }
  }

  /** Of two creations one lies in an earlier change, or both lie in the last. */
  lemma OneIsInFront(h: History, i: nat, k: nat, j: nat, l: nat)
    requires h != [] && TwoCreations(h, i, k, j, l)
    ensures var front, last := h[..|h| - 1], h[|h| - 1];
      || ManyCreations(front) || (SomeCreation(front) && Creations(last.ops) > 0) || Creations(last.ops) > 1
  {
    var front, last := h[..|h| - 1], h[|h| - 1];
    CreatesInFront(h, i, k);
    CreatesInFront(h, j, l);
    CreationsCount(last.ops);
    if i < |h| - 1 && j < |h| - 1 { assert TwoCreations(front, i, k, j, l); }
    if i < |h| - 1 { assert Creates(front, i, k); }
    if j < |h| - 1 { assert Creates(front, j, l); }
  }

  lemma {:induction false} CanonicalIsLast(h: History, i: nat, k: nat)
    requires Creates(h, i, k) && !ManyCreations(h)
    ensures RootIsCanonical(h) == h[i].seed
  {
    var front, last := h[..|h| - 1], h[|h| - 1];
    CreationsCount(last.ops);
    if i < |h| - 1 {
      assert Creates(front, i, k);
      assert forall l :: 0 <= l < |last.ops| && last.ops[l].CreateUsers? ==> TwoCreations(h, i, k, |h| - 1, l);
      if ManyCreations(front) {
        var a: nat, b: nat, c: nat, d: nat :| TwoCreations(front, a, b, c, d);
        assert TwoCreations(h, a, b, c, d);
      }
      CanonicalIsLast(front, i, k);
    }
  }

  /** Two writes to a key that no other write to it follows causally have the same effect. */
  ghost predicate NoMixedKey(h: History) {
    forall key, i, j, k, l ::
      0 <= i < |h| && 0 <= j < |h| && 0 <= k < |h[i].ops| && 0 <= l < |h[j].ops|
      && LastWriteAt(h[i].ops, key, k) && LastWriteAt(h[j].ops, key, l) && Maximal(h, key, i) && Maximal(h, key, j) ==>
        (h[i].ops[k].action.Delete? <==> h[j].ops[l].action.Delete?)
  }

  lemma NoMixedKeyIff(h: History)
    ensures NoMixedKey(h) <==> Homogeneous(h)
  {
    if NoMixedKey(h) {
      forall key, i, j | 0 <= i < |h| && 0 <= j < |h| && Maximal(h, key, i) && Maximal(h, key, j)
        ensures Written(h[i].ops, key) == Written(h[j].ops, key)
      {
        WrittenIs(h[i].ops, key);
        WrittenIs(h[j].ops, key);
      }
    }
    if Homogeneous(h) {
      forall key, i, j, k, l |
        0 <= i < |h| && 0 <= j < |h| && 0 <= k < |h[i].ops| && 0 <= l < |h[j].ops|
        && LastWriteAt(h[i].ops, key, k) && LastWriteAt(h[j].ops, key, l) && Maximal(h, key, i) && Maximal(h, key, j)
        ensures h[i].ops[k].action.Delete? <==> h[j].ops[l].action.Delete?
      {
        WrittenIs(h[i].ops, key);
        WrittenIs(h[j].ops, key);
      }
    }
  }

  /** A history is valid exactly if nothing overwrites the users root and it is created at most once; and
      if it is created, then by the canonical seed, every membership write names a canonical key and sets
      it to true or deletes it, and no key has mixed surviving writes. */
  lemma HistoryValidIff(h: History)
    ensures HistoryValid(h) <==>
              && (forall c, o :: c in h && o in c.ops ==> !o.OverwriteUsers?)
              && !ManyCreations(h)
              && (SomeCreation(h) ==>
                    && (forall i: nat, k: nat :: Creates(h, i, k) ==> h[i].seed)
                    && (forall c, o :: c in h && o in c.ops && o.Member? ==> o.canonicalKey && (o.action.SetTrue? || o.action.Delete?))
                    && NoMixedKey(h))
  {
    AllCreationsCount(h);
    NoMixedKeyIff(h);
    OpsValidIff(h, AllCreations(h) > 0);
    if SomeCreation(h) && !ManyCreations(h) {
      var i: nat, k: nat :| Creates(h, i, k);
      CanonicalIsLast(h, i, k);
      forall j: nat, l: nat | Creates(h, j, l) ensures h[j].seed == h[i].seed { CanonicalIsLast(h, j, l); }
    }
  }

  lemma OpsValidIff(h: History, known: bool)
    ensures (forall i :: 0 <= i < |h| ==> OpsValid(h[i].ops, known)) <==>
              forall c, o :: c in h && o in c.ops ==>
                !o.OverwriteUsers? && (known && o.Member? ==> o.canonicalKey && (o.action.SetTrue? || o.action.Delete?))
  {
    if forall i :: 0 <= i < |h| ==> OpsValid(h[i].ops, known) {
      forall c, o | c in h && o in c.ops
        ensures !o.OverwriteUsers? && (known && o.Member? ==> o.canonicalKey && (o.action.SetTrue? || o.action.Delete?))
      {
        var i :| 0 <= i < |h| && h[i] == c;
        assert OpsValid(h[i].ops, known);
      }
    }
  }

  /** Every accepted history with a users root gives one member set, whatever the delivery order. */
  lemma AcceptedIsOrderIndependent(h: History, p: History)
    requires Causal(h) && HistoryValid(h) && AllCreations(h) > 0 && Delivers(p, h)
    ensures Fold(p) == Fold(h)
  {
    HomogeneousIsOrderIndependent(h, p);
  }

  /** And a history whose only fault is a mixed frontier has two delivery orders that disagree. */
  lemma RejectedIsOrderDependent(h: History)
    requires Causal(h) && !Homogeneous(h)
    ensures exists p, q :: Delivers(p, h) && Delivers(q, h) && Fold(p) != Fold(q)
  {
    HomogeneousIffOrderIndependent(h);
    var p :| Delivers(p, h) && Fold(p) != Fold(h);
    assert Delivers(h, h);
  }
}
