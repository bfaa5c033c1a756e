/** The hash-linked chain of signed ACL changes. */
module AclChain {
  import opened Common
  import opened EntryPayload

  type Key = Bytes

  /** A signature names the key and the bytes it was made for; anything else does not verify. */
  datatype Signature = SignatureBy(key: Key, payload: Bytes, length: nat) | Garbage(length: nat)
  datatype Entry = Entry(body: Unsigned, signature: Signature)

  /** What the chain is configured with: the bootstrap keys and the operations on ACL states, any of
      which may throw. */
  datatype Config<!S> = Config(
    bootstrap: set<Key>, empty: S, isWriter: (S, Key) -> bool, apply: (S, Bytes) -> Option<S>, hash: Bytes -> Bytes)

  const MAX_PARENT_HASH: nat := 64
  const MAX_SIGNER_KEY: nat := 256
  const MAX_SIGNATURE: nat := 1024
  const MAX_CHANGE: nat := 0x10_0000
  predicate ShapeOk(e: Entry) {
    && e.body.sequence < TWO32
    && e.body.timestamp <= MAX_SAFE_INTEGER
    && 1 <= |e.body.signer| <= MAX_SIGNER_KEY
    && 1 <= e.signature.length <= MAX_SIGNATURE
    && (e.body.parent.Some? ==> 1 <= |e.body.parent.value| <= MAX_PARENT_HASH)
  }

  function HashOf<S>(config: Config<S>, e: Entry): Bytes { config.hash(Payload(e.body)) }

  function HeadHash<S>(config: Config<S>, entries: seq<Entry>): Option<Bytes> {
    if entries == [] then None else Some(HashOf(config, entries[|entries| - 1]))
  }

  /** The ACL state folded from the entries. */
  function Fold<S>(config: Config<S>, entries: seq<Entry>): Option<S> {
    if entries == [] then Some(config.empty)
    else
      var before := Fold(config, entries[..|entries| - 1]);
      if before.None? then None else config.apply(before.value, entries[|entries| - 1].body.change)
  }

  /** The key may sign the next entry: a bootstrap key for the first, a writer of the folded state
      afterwards. */
  predicate Authorized<S>(config: Config<S>, entries: seq<Entry>, key: Key) {
    if entries == [] then key in config.bootstrap
    else Fold(config, entries).Some? && config.isWriter(Fold(config, entries).value, key)
  }

  predicate Verifies(e: Entry) {
    e.signature.SignatureBy? && e.signature.key == e.body.signer && e.signature.payload == Payload(e.body)
  }

  /** Entry `e` is a valid next entry after `entries`. */
  predicate Fits<S>(config: Config<S>, entries: seq<Entry>, e: Entry) {
    && ShapeOk(e)
    && |e.body.change| <= MAX_CHANGE
    && e.body.sequence == |entries|
    && e.body.parent == HeadHash(config, entries)
    && Verifies(e)
    && Authorized(config, entries, e.body.signer)
    && Fold(config, entries + [e]).Some?
  }

  predicate ChainOk<S>(config: Config<S>, entries: seq<Entry>) {
    entries == [] || (ChainOk(config, entries[..|entries| - 1]) && Fits(config, entries[..|entries| - 1], entries[|entries| - 1]))
  }

  // ---------------------------------------------------------------- lemmas

  lemma ChainAppend<S>(config: Config<S>, entries: seq<Entry>, e: Entry)
    ensures ChainOk(config, entries + [e]) <==> ChainOk(config, entries) && Fits(config, entries, e)
  {
    assert (entries + [e])[..|entries|] == entries;
  }

  lemma FoldAppend<S>(config: Config<S>, entries: seq<Entry>, e: Entry)
    ensures Fold(config, entries + [e])
            == if Fold(config, entries).Some? then config.apply(Fold(config, entries).value, e.body.change) else None
  {
    assert (entries + [e])[..|entries|] == entries;
  }

  lemma {:induction false} ChainPrefix<S>(config: Config<S>, entries: seq<Entry>, k: nat)
    requires k <= |entries| && ChainOk(config, entries)
    ensures ChainOk(config, entries[..k])
    decreases |entries|
  {
    if k < |entries| {
      var front := entries[..|entries| - 1];
      ChainPrefix(config, front, k);
      assert front[..k] == entries[..k];
    } else {
      assert entries[..k] == entries;
    }
  }

  /** The state an entry is judged by: the changes of the entries before it, applied in order. */
  ghost predicate StateBefore<S>(config: Config<S>, entries: seq<Entry>, states: seq<S>) {
    && |states| == |entries| + 1 && states[0] == config.empty
    && forall i :: 0 <= i < |entries| ==> config.apply(states[i], entries[i].body.change) == Some(states[i + 1])
  }

  /** Entry i, spelled out: numbered by position, linked to the hash of the one before, within its
      bounds, signed over its own payload by the key it names, which is a bootstrap key for the first
      entry and otherwise a writer of the state before it. */
  ghost predicate EntryAllowed<S>(config: Config<S>, entries: seq<Entry>, i: nat, before: S)
    requires i < |entries|
  {
    var e := entries[i];
    && e.body.sequence == i < 0x1_0000_0000
    && e.body.parent == (if i == 0 then None else Some(config.hash(Payload(entries[i - 1].body))))
    && (i > 0 ==> 1 <= |config.hash(Payload(entries[i - 1].body))| <= 64)
    && e.body.timestamp <= 9007199254740991 && 1 <= |e.body.signer| <= 256 && |e.body.change| <= 1048576
    && 1 <= e.signature.length <= 1024
    && e.signature == SignatureBy(e.body.signer, Payload(e.body), e.signature.length)
    && (if i == 0 then e.body.signer in config.bootstrap else config.isWriter(before, e.body.signer))
  }

  lemma StatesAreFolds<S>(config: Config<S>, entries: seq<Entry>, states: seq<S>, i: nat)
    requires StateBefore(config, entries, states) && i <= |entries|
    ensures Fold(config, entries[..i]) == Some(states[i])
    decreases i
  {
    if i > 0 {
      StatesAreFolds(config, entries, states, i - 1);
      assert entries[..i] == entries[..i - 1] + [entries[i - 1]];
      FoldAppend(config, entries[..i - 1], entries[i - 1]);
    }
  }

  lemma {:induction false} FoldStates<S>(config: Config<S>, entries: seq<Entry>) returns (states: seq<S>)
    requires Fold(config, entries).Some?
    ensures StateBefore(config, entries, states)
  {
    if entries == [] {
      states := [config.empty];
    } else {
      var front := entries[..|entries| - 1];
      var before := FoldStates(config, front);
      StatesAreFolds(config, front, before, |front|);
      WholePrefix(front);
      states := before + [Fold(config, entries).value];
      forall i | 0 <= i < |entries| ensures config.apply(states[i], entries[i].body.change) == Some(states[i + 1]) {
        if i < |front| { assert entries[i] == front[i]; }
      }
    }
  }

  /** A list of entries is a chain exactly when their changes apply in order and each entry is allowed
      in the state before it. */
  lemma ChainIffEveryEntryAllowed<S>(config: Config<S>, entries: seq<Entry>, states: seq<S>)
    requires StateBefore(config, entries, states)
    ensures ChainOk(config, entries) <==> forall i :: 0 <= i < |entries| ==> EntryAllowed(config, entries, i, states[i])
  {
    if ChainOk(config, entries) {
      forall i | 0 <= i < |entries| ensures EntryAllowed(config, entries, i, states[i]) {
        EveryEntryFits(config, entries, i);
        FitsAt(config, entries, i);
        StatesAreFolds(config, entries, states, i);
      }
    }
    if forall i :: 0 <= i < |entries| ==> EntryAllowed(config, entries, i, states[i]) {
      AllowedIsChain(config, entries, states, |entries|);
      WholePrefix(entries);
    }
  }

  lemma {:induction false} AllowedIsChain<S>(config: Config<S>, entries: seq<Entry>, states: seq<S>, k: nat)
    requires StateBefore(config, entries, states) && k <= |entries|
    requires forall i :: 0 <= i < k ==> EntryAllowed(config, entries, i, states[i])
    ensures ChainOk(config, entries[..k])
    decreases k
  {
    if k > 0 {
      AllowedIsChain(config, entries, states, k - 1);
      StatesAreFolds(config, entries, states, k - 1);
      StatesAreFolds(config, entries, states, k);
      SplitAt(entries, k - 1);
      assert EntryAllowed(config, entries, k - 1, states[k - 1]);
      if k > 1 { assert entries[..k - 1][k - 2] == entries[k - 2]; }
      ChainAppend(config, entries[..k - 1], entries[k - 1]);
    }
  }

  /** Chains are exactly such lists. */
  lemma ChainHasStates<S>(config: Config<S>, entries: seq<Entry>) returns (states: seq<S>)
    requires ChainOk(config, entries)
    ensures StateBefore(config, entries, states)
    ensures forall i :: 0 <= i < |entries| ==> EntryAllowed(config, entries, i, states[i])
  {
    ChainState(config, entries);
    states := FoldStates(config, entries);
    ChainIffEveryEntryAllowed(config, entries, states);
  }

  /** Every entry of a chain: numbered by position, linked to the hash of the one before, signed, and
      signed by a bootstrap key if it is the first and by a writer of the state before it otherwise. */
  lemma EveryEntryFits<S>(config: Config<S>, entries: seq<Entry>, i: nat)
    requires ChainOk(config, entries) && i < |entries|
    ensures entries[i].body.sequence == i
    ensures entries[i].body.parent == if i == 0 then None else Some(HashOf(config, entries[i - 1]))
    ensures Verifies(entries[i]) && ShapeOk(entries[i]) && Fold(config, entries[..i]).Some?
    ensures i == 0 ==> entries[i].body.signer in config.bootstrap
    ensures i > 0 ==> config.isWriter(Fold(config, entries[..i]).value, entries[i].body.signer)
  {
    FitsAt(config, entries, i);
    ChainPrefix(config, entries, i);
    ChainState(config, entries[..i]);
    if i > 0 { assert entries[..i][i - 1] == entries[i - 1]; }
  }

  lemma FitsAt<S>(config: Config<S>, entries: seq<Entry>, i: nat)
    requires ChainOk(config, entries) && i < |entries|
    ensures Fits(config, entries[..i], entries[i])
  {
    ChainPrefix(config, entries, i + 1);
    assert entries[..i + 1][..i] == entries[..i];
  }

  lemma ChainState<S>(config: Config<S>, entries: seq<Entry>)
    requires ChainOk(config, entries)
    ensures Fold(config, entries).Some?
  {
    if entries != [] { assert entries == entries[..|entries| - 1] + [entries[|entries| - 1]]; }
  }

  lemma AdmittedIsNormal(u: Unsigned)
    requires u.sequence < TWO32 && u.timestamp <= MAX_SAFE_INTEGER && u.parent != Some([])
    ensures Normal(u) == u
  {
    assert u.timestamp % TWO64 == u.timestamp;
    assert u.sequence % TWO32 == u.sequence;
  }

  /** An admitted shape is its own normal form, so admitted entries with the same signed bytes are
      the same entry up to the signature. */
  lemma PayloadIsInjective(a: Entry, b: Entry)
    requires ShapeOk(a) && ShapeOk(b) && |a.body.change| <= MAX_CHANGE && |b.body.change| <= MAX_CHANGE
    requires Payload(a.body) == Payload(b.body)
    ensures a.body == b.body
  {
    AdmittedIsNormal(a.body);
    AdmittedIsNormal(b.body);
    PayloadsAgreeIffNormal(a.body, b.body);
  }

  /** The shape checks are needed: a sequence past 32 bits, or an empty parent hash, always has
      another entry with the same signed bytes. */
  lemma RejectedShapesCollide(u: Unsigned)
    requires u.sequence >= TWO32 || u.parent == Some([])
    ensures Normal(u) != u && Payload(Normal(u)) == Payload(u)
  {
    NormalKeepsPayload(u);
  }

  ghost predicate CollisionFree<S>(config: Config<S>) {
    forall p, q :: config.hash(p) == config.hash(q) ==> p == q
  }

  lemma LastBodiesAgree<S>(config: Config<S>, a: seq<Entry>, x: Entry, b: seq<Entry>, y: Entry)
    requires ShapeOk(x) && |x.body.change| <= MAX_CHANGE && x.body.sequence == |a| && x.body.parent == HeadHash(config, a)
    requires ShapeOk(y) && |y.body.change| <= MAX_CHANGE && y.body.sequence == |b| && y.body.parent == HeadHash(config, b)
    requires HashOf(config, x) == HashOf(config, y) && CollisionFree(config)
    ensures x.body == y.body && |a| == |b| && HeadHash(config, a) == HeadHash(config, b)
  {
    HashCommits(config, x, y);
  }

  lemma HashCommits<S>(config: Config<S>, x: Entry, y: Entry)
    requires ShapeOk(x) && |x.body.change| <= MAX_CHANGE && ShapeOk(y) && |y.body.change| <= MAX_CHANGE
    requires HashOf(config, x) == HashOf(config, y) && CollisionFree(config)
    ensures x.body == y.body
  {
    PayloadIsInjective(x, y);
  }

  lemma LastFits<S>(config: Config<S>, a: seq<Entry>)
    requires ChainOk(config, a) && a != []
    ensures var e := a[|a| - 1];
      && ShapeOk(e) && |e.body.change| <= MAX_CHANGE
      && e.body.sequence == |a| - 1 && e.body.parent == HeadHash(config, a[..|a| - 1])
  {}

  function Bodies(entries: seq<Entry>): seq<Unsigned> {
    if entries == [] then [] else Bodies(entries[..|entries| - 1]) + [entries[|entries| - 1].body]
  }

  /** A head hash commits to the whole chain: two chains with one head hold the same signed bodies. */
  lemma {:induction false} HeadCommitsToChain<S>(config: Config<S>, a: seq<Entry>, b: seq<Entry>)
    requires ChainOk(config, a) && ChainOk(config, b) && HeadHash(config, a) == HeadHash(config, b)
    requires CollisionFree(config)
    ensures Bodies(a) == Bodies(b)
    decreases |a|
  {
    if a != [] && b != [] {
      LastFits(config, a);
      LastFits(config, b);
      LastBodiesAgree(config, a[..|a| - 1], a[|a| - 1], b[..|b| - 1], b[|b| - 1]);
      HeadCommitsToChain(config, a[..|a| - 1], b[..|b| - 1]);
    }
  }

  // ---------------------------------------------------------------- the object

  lemma PrefixNeeded<S>(config: Config<S>, entries: seq<Entry>, k: nat)
    requires k <= |entries|
    ensures ChainOk(config, entries) ==> ChainOk(config, entries[..k])
  {
    if ChainOk(config, entries) { ChainPrefix(config, entries, k); }
  }

  /** The caller's lookup returns the key an entry names. */
  predicate Resolves(resolve: map<Bytes, Key>, e: Entry) {
    e.body.signer in resolve && resolve[e.body.signer] == e.body.signer
  }

  predicate AllResolve(resolve: map<Bytes, Key>, entries: seq<Entry>) {
    forall e :: e in entries ==> Resolves(resolve, e)
  }

  lemma ResolveAppend(resolve: map<Bytes, Key>, entries: seq<Entry>, e: Entry)
    ensures AllResolve(resolve, entries + [e]) <==> AllResolve(resolve, entries) && Resolves(resolve, e)
  {
    var all := entries + [e];
    assert e in all && forall f :: f in entries ==> f in all;
  }

  /** The checks that need no ACL state: shape, named signer, position, link, size and signature. */
  predicate FieldsOk(index: nat, head: Option<Bytes>, e: Entry, signerKey: Key) {
    && ShapeOk(e) && e.body.signer == signerKey
    && e.body.sequence == index && e.body.parent == head
    && |e.body.change| <= MAX_CHANGE && Verifies(e)
  }

  /** With the state checks they decide exactly whether the longer chain is valid. */
  lemma ChecksDecide<S>(config: Config<S>, entries: seq<Entry>, e: Entry, signerKey: Key)
    requires ChainOk(config, entries)
    ensures Fold(config, entries).Some?
    ensures ChainOk(config, entries + [e]) && signerKey == e.body.signer <==>
              && FieldsOk(|entries|, HeadHash(config, entries), e, signerKey)
              && Authorized(config, entries, signerKey)
              && config.apply(Fold(config, entries).value, e.body.change).Some?
  {
    ChainState(config, entries);
    ChainAppend(config, entries, e);
    FoldAppend(config, entries, e);
  }

  /** The fields of a chain object are determined by its entries. */
  ghost predicate FieldsMatch<S>(config: Config<S>, entries: seq<Entry>, hashes: seq<Bytes>, state: Option<S>) {
    && |hashes| == |entries|
    && (forall i :: 0 <= i < |entries| ==> hashes[i] == HashOf(config, entries[i]))
    && state == if entries == [] then None else Fold(config, entries)
  }

  lemma FieldsAppend<S>(config: Config<S>, entries: seq<Entry>, hashes: seq<Bytes>, state: Option<S>, e: Entry)
    requires FieldsMatch(config, entries, hashes, state)
    ensures FieldsMatch(config, entries + [e], hashes + [HashOf(config, e)], Fold(config, entries + [e]))
  {}

  /** A replay that stops at entry i was given no valid chain. */
  lemma ReplayStops<S>(config: Config<S>, given: seq<Entry>, i: nat, resolve: map<Bytes, Key>)
    requires i < |given| && !(ChainOk(config, given[..i] + [given[i]]) && Resolves(resolve, given[i]))
    ensures !ChainOk(config, given[..i + 1]) || !Resolves(resolve, given[i])
    ensures !(ChainOk(config, given) && AllResolve(resolve, given))
  {
    SplitAt(given, i);
    PrefixNeeded(config, given, i + 1);
    assert given[i] in given;
  }

  datatype Verdict = Accepted | Rejected(reason: string, index: nat)

  /** Make the stateless checks in order; the empty reason means all passed. */
  method CheckFields(index: nat, head: Option<Bytes>, e: Entry, signerKey: Key) returns (reason: string)
    ensures reason == "" <==> FieldsOk(index, head, e, signerKey)
    ensures reason == "unknown-signer-key" <==> ShapeOk(e) && e.body.signer != signerKey
    ensures reason == "sequence-out-of-order" <==> ShapeOk(e) && e.body.signer == signerKey && e.body.sequence != index
    ensures reason == "parent-hash-mismatch" <==>
              ShapeOk(e) && e.body.signer == signerKey && e.body.sequence == index && e.body.parent != head
    ensures reason == "bad-signature" <==>
              && ShapeOk(e) && e.body.signer == signerKey && e.body.sequence == index && e.body.parent == head
              && |e.body.change| <= MAX_CHANGE && !Verifies(e)
    ensures reason in {"", "malformed-entry", "unknown-signer-key", "sequence-out-of-order", "parent-hash-mismatch", "bad-signature"}
  {
    if !ShapeOk(e) { return "malformed-entry"; }
    if e.body.signer != signerKey { return "unknown-signer-key"; }
    if e.body.sequence != index { return "sequence-out-of-order"; }
    if e.body.parent != head { return "parent-hash-mismatch"; }
    if |e.body.change| > MAX_CHANGE { return "malformed-entry"; }
    var encoded := EncodePayload(e.body);
    var payload := encoded[..];
    if !(e.signature.SignatureBy? && e.signature.key == signerKey && e.signature.payload == payload) { return "bad-signature"; }
    reason := "";
  }

  class Chain<S> {
    const config: Config<S>
    var entries: seq<Entry>
    var hashes: seq<Bytes>
    var state: Option<S>

    ghost predicate Valid()
      reads this
    {
      ChainOk(config, entries) && FieldsMatch(config, entries, hashes, state)
    }

    constructor (config: Config<S>)
      ensures Valid() && entries == [] && this.config == config
    {
      this.config, entries, hashes, state := config, [], [], None;
    }

    /** Accept the entry exactly when the longer chain is valid and the caller named its signer; an
        entry that is not accepted changes nothing. */
    method Ingest(e: Entry, signerKey: Key) returns (v: Verdict)
      requires Valid()
      modifies this
      ensures Valid()
      ensures v.Accepted? <==> ChainOk(config, old(entries) + [e]) && signerKey == e.body.signer
      ensures v.Accepted? ==> entries == old(entries) + [e]
      ensures v.Rejected? ==> v.index == |old(entries)|
                              && entries == old(entries) && hashes == old(hashes) && state == old(state)
      ensures v.Rejected? && v.reason == "unauthorized-signer" <==>
                FieldsOk(|old(entries)|, HeadHash(config, old(entries)), e, signerKey) && !Authorized(config, old(entries), signerKey)
    {
      var index := |entries|;
      ChecksDecide(config, entries, e, signerKey);
      var reason := CheckFields(index, if hashes == [] then None else Some(hashes[index - 1]), e, signerKey);
      if reason != "" { return Rejected(reason, index); }
      var prior := if state.Some? then state.value else config.empty;
      var authorized := if index == 0 then signerKey in config.bootstrap else config.isWriter(prior, signerKey);
      if !authorized { return Rejected("unauthorized-signer", index); }
      var next := config.apply(prior, e.body.change);
      if next.None? { return Rejected("malformed-entry", index); }
      FieldsAppend(config, entries, hashes, state, e);
      FoldAppend(config, entries, e);
      state, entries, hashes := next, entries + [e], hashes + [config.hash(Payload(e.body))];
      v := Accepted;
    }

    /** Build, sign and append; the result is exactly the entry that joined the chain. */
    method AuthorAndAppend(change: Bytes, publicKey: Key, privateKey: Key, timestamp: nat, signatureLength: nat)
      returns (r: Option<Entry>)
      requires Valid()
      modifies this
      ensures Valid()
      ensures var body := Unsigned(|old(entries)|, timestamp, HeadHash(config, old(entries)), publicKey, change);
        var e := Entry(body, SignatureBy(privateKey, Payload(body), signatureLength));
        && (r.Some? <==> ChainOk(config, old(entries) + [e]))
        && (r.Some? ==> r.value == e && entries == old(entries) + [e])
      ensures r.None? ==> entries == old(entries) && hashes == old(hashes) && state == old(state)
    {
      var head := if hashes == [] then None else Some(hashes[|hashes| - 1]);
      var body := Unsigned(|entries|, timestamp, head, publicKey, change);
      var encoded := EncodePayload(body);
      var e := Entry(body, SignatureBy(privateKey, encoded[..], signatureLength));
      var v := Ingest(e, publicKey);
      r := if v.Accepted? then Some(e) else None;
    }

    method IngestResolved(e: Entry, resolve: map<Bytes, Key>) returns (v: Verdict)
      requires Valid()
      modifies this
      ensures Valid()
      ensures v.Accepted? <==> ChainOk(config, old(entries) + [e]) && Resolves(resolve, e)
      ensures v.Accepted? ==> entries == old(entries) + [e]
      ensures v.Rejected? ==> v.index == |old(entries)| && entries == old(entries)
    {
      ChainAppend(config, entries, e);
      if !ShapeOk(e) { return Rejected("malformed-entry", |entries|); }
      if e.body.signer !in resolve { return Rejected("unknown-signer-key", |entries|); }
      v := Ingest(e, resolve[e.body.signer]);
    }

    method Reset()
      modifies this
      ensures Valid() && entries == []
    {
      entries, hashes, state := [], [], None;
    }

    /** Start over and ingest the given entries; stop at the first bad one, keeping exactly the valid
        prefix before it. */
    method Replay(given: seq<Entry>, resolve: map<Bytes, Key>) returns (v: Verdict)
      requires Valid()
      modifies this
      ensures Valid()
      ensures v.Accepted? <==>
                ChainOk(config, given) && AllResolve(resolve, given)
      ensures v.Accepted? ==> entries == given
      ensures v.Rejected? ==>
                && v.index < |given| && entries == given[..v.index]
                && (!ChainOk(config, given[..v.index + 1]) || !Resolves(resolve, given[v.index]))
    {
      Reset();
      var n;
      n, v := IngestAll(given, resolve);
      if n < |given| {
        ReplayStops(config, given, n, resolve);
      } else {
        WholePrefix(given);
      }
    }

    /** Ingest from an empty chain until an entry is rejected. */
    method IngestAll(given: seq<Entry>, resolve: map<Bytes, Key>) returns (n: nat, v: Verdict)
      requires Valid() && entries == []
      modifies this
      ensures Valid() && n <= |given| && entries == given[..n] && AllResolve(resolve, given[..n])
      ensures n == |given| ==> v == Accepted
      ensures n < |given| ==>
                v.Rejected? && v.index == n && !(ChainOk(config, given[..n] + [given[n]]) && Resolves(resolve, given[n]))
    {
      n, v := 0, Accepted;
      while n < |given|
        invariant Valid() && n <= |given| && entries == given[..n] && AllResolve(resolve, given[..n]) && v == Accepted
      {
        v := IngestResolved(given[n], resolve);
        if v.Rejected? { return; }
        SplitAt(given, n);
        ResolveAppend(resolve, given[..n], given[n]);
        n := n + 1;
      }
    }
  }

  /** After the field bounds, the bound on the whole payload can no longer be exceeded. */
  lemma PayloadLength(e: Entry)
    requires ShapeOk(e) && |e.body.change| <= MAX_CHANGE
    ensures |Payload(e.body)| <= MAX_CHANGE + 1024
  {}
}
