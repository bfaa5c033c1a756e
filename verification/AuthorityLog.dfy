/** The signed role history as an object: restoring it from exported records, checking and
    installing updates, leases, and the controller lookup used by group authorization. */
module AuthorityLog {
  import opened Common
  import opened DocumentTypes
  import opened AuthorityHistory

  const MAX_HISTORY_BYTES: nat := 16 * 1024 * 1024
  const MAX_RECORD_BYTES: nat := 1024 * 1024

  /** A record with its signature: `signer` is the member whose key the signature verifies under. */
  datatype SignedRecord = SignedRecord(record: AuthorityRecord, signer: Option<Member>, length: nat)

  function Unsigned(records: seq<SignedRecord>): seq<AuthorityRecord> {
    seq(|records|, i requires 0 <= i < |records| => records[i].record)
  }

  function HistoryBytes(records: seq<SignedRecord>): nat {
    if records == [] then 0 else HistoryBytes(records[..|records| - 1]) + records[|records| - 1].length
  }

  function HeadOf(records: seq<SignedRecord>): AuthorityHead {
    if records == [] then NoAuthority else AuthorityDigest(records[|records| - 1].record)
  }

  /** Each record is signed by the controller in force before it; the first by its own. */
  ghost predicate SignaturesOk(records: seq<SignedRecord>) {
    records == [] ||
    var front, last := records[..|records| - 1], records[|records| - 1];
    var before := if front == [] then last else front[|front| - 1];
    && SignaturesOk(front)
    && RosterValid(before.record.roster)
    && last.signer == Some(Controller(before.record.roster))
  }

  /** A list of records is one valid signed history from the pinned genesis. */
  ghost predicate Acceptable(records: seq<SignedRecord>, pin: AuthorityHead) {
    && 1 <= |records| <= MAX_RECORDS
    && (forall i :: 0 <= i < |records| ==> 1 <= records[i].length <= MAX_RECORD_BYTES)
    && HistoryBytes(records) <= MAX_HISTORY_BYTES
    && AuthorityDigest(records[0].record) == pin
    && Records(HeadOf(records)) == Unsigned(records)
    && ValidHistory(HeadOf(records))
    && SignaturesOk(records)
  }

  // ---------------------------------------------------------------- how acceptance grows

  ghost predicate FirstOk(r: SignedRecord, pin: AuthorityHead) {
    && 1 <= r.length <= MAX_RECORD_BYTES
    && AuthorityDigest(r.record) == pin && r.record.sequence == 1 && r.record.parent == NoAuthority
    && RosterValid(r.record.roster) && r.signer == Some(Controller(r.record.roster))
  }

  lemma FirstAcceptable(r: SignedRecord, pin: AuthorityHead)
    ensures Acceptable([r], pin) <==> FirstOk(r, pin)
  {
    var one, p := [r], r.record.parent;
    assert one == [] + [r] && one[..0] == [] && one[0] == r;
    HeadAppend([], r);
    assert Unsigned(one) == [r.record];
    assert SignaturesOk(one) <==> RosterValid(r.record.roster) && r.signer == Some(Controller(r.record.roster));
    assert Records(HeadOf(one)) == Records(p) + [r.record];
    if Acceptable(one, pin) {
      assert Records(p) == (Records(p) + [r.record])[..0];
      assert p == NoAuthority;
    }
    if FirstOk(r, pin) {
      assert Records(p) == [];
      assert ValidHistory(HeadOf(one));
    }
  }

  /** What installing one more record needs. */
  ghost predicate NextOk(records: seq<SignedRecord>, r: SignedRecord)
    requires records != [] && ValidHistory(HeadOf(records))
  {
    && MayFollow(HeadOf(records), r.record)
    && RosterValid(r.record.roster)
    && r.signer == Some(Controller(records[|records| - 1].record.roster))
    && 1 <= r.length <= MAX_RECORD_BYTES
    && HistoryBytes(records) + r.length <= MAX_HISTORY_BYTES
  }

  lemma HeadAppend(records: seq<SignedRecord>, r: SignedRecord)
    ensures HeadOf(records + [r]) == AuthorityDigest(r.record)
    ensures HistoryBytes(records + [r]) == HistoryBytes(records) + r.length
    ensures Unsigned(records + [r]) == Unsigned(records) + [r.record]
  {
    assert (records + [r])[..|records|] == records;
  }

  lemma AppendAcceptable(records: seq<SignedRecord>, r: SignedRecord, pin: AuthorityHead)
    requires Acceptable(records, pin) && NextOk(records, r)
    ensures Acceptable(records + [r], pin)
  {
    HeadAppend(records, r);
    assert (records + [r])[..|records|] == records;
    RecordsOfValid(HeadOf(records + [r]));
  }

  /** A prefix of an acceptable log is acceptable, and each record passed the update check. */
  lemma AcceptablePrefix(records: seq<SignedRecord>, r: SignedRecord, pin: AuthorityHead)
    requires records != [] && Acceptable(records + [r], pin)
    ensures Acceptable(records, pin) && NextOk(records, r)
  {
    var all, p := records + [r], r.record.parent;
    HeadAppend(records, r);
    assert all[..|records|] == records && all[0] == records[0];
    assert Records(HeadOf(all)) == Records(p) + [r.record];
    assert Records(p) == Records(HeadOf(all))[..|records|] == Unsigned(records);
    assert p.AuthorityDigest?;
    assert p == HeadOf(records) by {
      var rp := Records(p);
      assert rp[|rp| - 1] == p.record && Unsigned(records)[|records| - 1] == records[|records| - 1].record;
    }
    forall i | 0 <= i < |records| ensures 1 <= records[i].length <= MAX_RECORD_BYTES { assert all[i] == records[i]; }
    assert all[|records|] == r;
  }

  // ---------------------------------------------------------------- the object

  datatype Lease = Lease(revision: nat, head: AuthorityHead, roster: Roster)

  /** The lease grants the roles of the newest of these records. */
  predicate IssuedAt(lease: Lease, records: seq<SignedRecord>) {
    && records != [] && lease.revision == |records|
    && lease.head == HeadOf(records) && lease.roster == records[|records| - 1].record.roster
  }

  /** In an acceptable history the sequence of the newest record counts the records. */
  lemma SequenceCounts(records: seq<SignedRecord>, pin: AuthorityHead)
    requires Acceptable(records, pin)
    ensures HeadOf(records).record.sequence == |records|
  {
    RecordsOfValid(HeadOf(records));
    assert |Unsigned(records)| == |records|;
  }

  predicate RosterCheck(roster: Roster) {
    && 1 <= |roster| <= 256
    && (forall m :: m in roster ==> 1 <= roster[m] <= 3)
    && (exists m :: m in roster && roster[m] == 3)
    && (forall m :: m in roster && roster[m] == 3 ==> forall n :: n in roster && roster[n] == 3 ==> m == n)
  }

  lemma RosterCheckIsValid(roster: Roster)
    ensures RosterCheck(roster) <==> RosterValid(roster)
  {}

  method FindController(roster: Roster) returns (c: Member)
    requires RosterValid(roster)
    ensures c == Controller(roster)
  {
    c :| c in roster && roster[c] == 3;
  }

  class Log {
    var records: seq<SignedRecord>
    var historyBytes: nat
    var revision: nat
    var head: AuthorityHead
    var root: AuthorityHead
    var current: AuthorityRecord
    var controllers: map<nat, Member>
    var verifiedHeads: set<AuthorityHead>

    /** Every field is determined by the list of records. */
    ghost predicate Valid()
      reads this
    {
      && Acceptable(records, root)
      && historyBytes == HistoryBytes(records)
      && head == HeadOf(records) && head == AuthorityDigest(current)
      && revision == current.sequence
      && controllers == Controllers(head)
      && verifiedHeads == Heads(head)
    }

    constructor Genesis(first: SignedRecord)
      requires Acceptable([first], AuthorityDigest(first.record))
      ensures Valid() && records == [first] && root == AuthorityDigest(first.record)
    {
      FirstAcceptable(first, AuthorityDigest(first.record));
      RosterCheckIsValid(first.record.roster);
      records, historyBytes, revision := [first], first.length, 1;
      head, root, current := AuthorityDigest(first.record), AuthorityDigest(first.record), first.record;
      var c :| c in first.record.roster && first.record.roster[c] == 3;
      controllers, verifiedHeads := map[first.record.context.controlHead := c], {AuthorityDigest(first.record)};
      assert [first][..0] == [];
    }

    /** The check made before a record may be installed. */
    method ValidateNext(next: AuthorityRecord) returns (ok: bool)
      requires Valid()
      ensures ok <==> MayFollow(head, next)
    {
      RecordsOfValid(head);
      ok := |records| < MAX_RECORDS
            && next.documentId == current.documentId
            && next.sequence == revision + 1 && next.parent == head
            && CanAdvance(current.context, next.context)
            && |controllers| < MAX_RECORDS && next.context.controlHead !in controllers;
    }

    method Install(r: SignedRecord)
      requires Valid() && NextOk(records, r)
      modifies this
      ensures Valid() && records == old(records) + [r] && root == old(root)
    {
      AppendAcceptable(records, r, root);
      HeadAppend(records, r);
      var c := FindController(r.record.roster);
      records, historyBytes := records + [r], historyBytes + r.length;
      revision, current, head := r.record.sequence, r.record, AuthorityDigest(r.record);
      verifiedHeads := verifiedHeads + {head};
      controllers := controllers[r.record.context.controlHead := c];
    }

    /** Accept an update exactly when the longer history would restore and it names the group state
        the coordinator authenticated; otherwise nothing changes. */
    method ApplyUpdate(r: SignedRecord, authenticated: Context) returns (ok: bool)
      requires Valid()
      modifies this
      ensures Valid() && root == old(root)
      ensures ok <==> Acceptable(old(records) + [r], root) && r.record.context == authenticated
      ensures records == if ok then old(records) + [r] else old(records)
    {
      ghost var longer := records + [r];
      RosterCheckIsValid(r.record.roster);
      var follows := ValidateNext(r.record);
      var controller := FindController(current.roster);
      ok := follows && RosterCheck(r.record.roster) && 1 <= r.length <= MAX_RECORD_BYTES
            && historyBytes + r.length <= MAX_HISTORY_BYTES
            && r.record.context == authenticated && r.signer == Some(controller);
      if ok {
        AppendAcceptable(records, r, root);
        Install(r);
      } else if Acceptable(longer, root) {
        AcceptablePrefix(records, r, root);
      }
    }

    method ExtendsHead(h: AuthorityHead) returns (r: bool)
      requires Valid()
      ensures r <==> exists i :: 0 <= i < |records| && AuthorityDigest(records[i].record) == h
    {
      r := h in verifiedHeads;
      HeadIsRecord(records, root, h);
    }

    /** A lease is given exactly for the group state the newest record names, and grants the roles of
        that record, the only one of the history with this state. */
    method Capture(context: Context) returns (lease: Option<Lease>)
      requires Valid()
      ensures lease.Some? <==> records[|records| - 1].record.context == context
      ensures lease.Some? ==> IssuedAt(lease.value, records) && IsCurrent(lease.value)
      ensures lease.Some? ==> forall i :: 0 <= i < |records| && records[i].record.context == context ==> i == |records| - 1
    {
      SequenceCounts(records, root);
      forall i | 0 <= i < |records| - 1 ensures records[i].record.context != current.context {
        LogNeverRepeats(records, root, i, |records| - 1);
      }
      lease := if context == current.context then Some(Lease(revision, head, current.roster)) else None;
    }

    predicate IsCurrent(lease: Lease)
      reads this
    {
      revision == lease.revision
    }

    method ControllerAtHead(control: nat) returns (c: Option<Member>)
      requires Valid()
      ensures c.Some? <==> control in Controllers(head)
      ensures c.Some? ==> c.value == Controllers(head)[control]
    {
      c := if control in controllers then Some(controllers[control]) else None;
    }
  }

  /** The digests a log answers for are those of its own records. */
  lemma HeadIsRecord(records: seq<SignedRecord>, pin: AuthorityHead, h: AuthorityHead)
    requires Acceptable(records, pin)
    ensures h in Heads(HeadOf(records)) <==> exists i :: 0 <= i < |records| && AuthorityDigest(records[i].record) == h
  {
    var head := HeadOf(records);
    if h in Heads(head) {
      HeadsNewest(head, h);
      var i :| 0 <= i < |Unsigned(records)| && Unsigned(records)[i] == h.record;
      assert AuthorityDigest(records[i].record) == h;
    }
    if exists i :: 0 <= i < |records| && AuthorityDigest(records[i].record) == h {
      var i :| 0 <= i < |records| && AuthorityDigest(records[i].record) == h;
      assert Unsigned(records)[i] == h.record;
      ExtendsIffRecord(head, h.record);
    }
  }

  /** Copy the records within their bounds. */
  method SizesOk(records: seq<SignedRecord>) returns (ok: bool)
    ensures ok <==> HistoryBytes(records) <= MAX_HISTORY_BYTES
                    && forall i :: 0 <= i < |records| ==> 1 <= records[i].length <= MAX_RECORD_BYTES
  {
    var bytes := 0;
    for i := 0 to |records|
      invariant bytes == HistoryBytes(records[..i]) <= MAX_HISTORY_BYTES
      invariant forall k :: 0 <= k < i ==> 1 <= records[k].length <= MAX_RECORD_BYTES
    {
      assert records[..i + 1][..i] == records[..i];
      HistoryGrows(records, i + 1);
      if records[i].length < 1 || records[i].length > MAX_RECORD_BYTES || bytes + records[i].length > MAX_HISTORY_BYTES {
        return false;
      }
      bytes := bytes + records[i].length;
    }
    assert records[..|records|] == records;
    ok := true;
  }

  /** Check the first record against the pin and under its own controller. */
  method GenesisOk(first: SignedRecord, pin: AuthorityHead) returns (ok: bool)
    ensures ok <==> AuthorityDigest(first.record) == pin && first.record.sequence == 1 && first.record.parent == NoAuthority
                    && RosterValid(first.record.roster) && first.signer == Some(Controller(first.record.roster))
  {
    RosterCheckIsValid(first.record.roster);
    ok := AuthorityDigest(first.record) == pin && first.record.sequence == 1 && first.record.parent == NoAuthority
          && RosterCheck(first.record.roster);
    if ok {
      var controller := FindController(first.record.roster);
      ok := first.signer == Some(controller);
    }
  }

  /** Verify exported records against a genesis digest pinned elsewhere: it succeeds exactly on one
      valid signed history from that genesis and then holds those records. */
  method ReadRecords(records: seq<SignedRecord>, pin: AuthorityHead) returns (log: Log?)
    ensures log != null ==> fresh(log) && log.Valid() && log.records == records && log.root == pin
    ensures log != null <==> Acceptable(records, pin)
  {
    if |records| < 1 || |records| > MAX_RECORDS { return null; }
    var sizes := SizesOk(records);
    if !sizes { return null; }
    var first := records[0];
    assert records[..1] == [first];
    FirstAcceptable(first, pin);
    PrefixAcceptable(records, 1, pin);
    var genesis := GenesisOk(first, pin);
    if !genesis { return null; }
    var result := new Log.Genesis(first);
    var ok := InstallRest(result, records, pin);
    log := if ok then result else null;
  }

  /** Check and install everything after the genesis record. */
  method InstallRest(log: Log, records: seq<SignedRecord>, pin: AuthorityHead) returns (ok: bool)
    requires records != [] && log.Valid() && log.records == records[..1] && log.root == pin
    modifies log
    ensures log.Valid() && log.root == pin
    ensures ok <==> Acceptable(records, pin)
    ensures ok ==> log.records == records
  {
    for i := 1 to |records|
      invariant log.Valid() && log.records == records[..i] && log.root == pin
    {
      SplitAt(records, i);
      PrefixAcceptable(records, i + 1, pin);
      var installed := log.ApplyUpdate(records[i], records[i].record.context);
      if !installed { return false; }
    }
    assert records[..|records|] == records;
    ok := true;
  }

  lemma {:induction false} HistoryGrows(records: seq<SignedRecord>, k: nat)
    requires k <= |records|
    ensures HistoryBytes(records[..k]) <= HistoryBytes(records)
    decreases |records|
  {
    if k < |records| {
      var front := records[..|records| - 1];
      assert front[..k] == records[..k];
      HistoryGrows(front, k);
    } else {
      assert records[..k] == records;
    }
  }

  /** A record list is acceptable only if each of its nonempty prefixes is. */
  lemma {:induction false} PrefixAcceptable(records: seq<SignedRecord>, k: nat, pin: AuthorityHead)
    requires 1 <= k <= |records|
    ensures Acceptable(records, pin) ==> Acceptable(records[..k], pin)
    decreases |records|
  {
    if k == |records| {
      assert records[..k] == records;
    } else if Acceptable(records, pin) {
      var front := records[..|records| - 1];
      SplitLast(records);
      AcceptablePrefix(front, records[|records| - 1], pin);
      assert front[..k] == records[..k];
      PrefixAcceptable(front, k, pin);
    }
  }

  // ---------------------------------------------------------------- theorems

  /** If one log answers for another's head, the other's unsigned records are a prefix of its own:
      two logs never fork below a head they share. */
  lemma SharedHeadMeansPrefix(a: seq<SignedRecord>, b: seq<SignedRecord>, pin: AuthorityHead, pin': AuthorityHead)
    requires Acceptable(a, pin) && Acceptable(b, pin')
    ensures Extends(HeadOf(a), HeadOf(b)) <==> Unsigned(b) <= Unsigned(a)
    ensures Extends(HeadOf(a), HeadOf(b)) ==> pin == pin'
  {
    ExtendsIffPrefix(HeadOf(a), HeadOf(b));
    if Unsigned(b) <= Unsigned(a) { assert Unsigned(b)[0] == Unsigned(a)[0]; }
  }

  /** Epochs rise strictly along a log, and no control head is used twice. */
  lemma {:induction false} LogNeverRepeats(records: seq<SignedRecord>, pin: AuthorityHead, i: nat, j: nat)
    requires Acceptable(records, pin) && i < j < |records|
    ensures records[i].record.context.epoch < records[j].record.context.epoch
    ensures records[i].record.context.controlHead != records[j].record.context.controlHead
    decreases |records|
  {
    var front, last := records[..|records| - 1], records[|records| - 1];
    SplitLast(records);
    AcceptablePrefix(front, last, pin);
    if j < |front| {
      LogNeverRepeats(front, pin, i, j);
    } else {
      var head, earlier := HeadOf(front), AuthorityDigest(records[i].record);
      assert front[i] == records[i];
      HeadIsRecord(front, pin, earlier);
      ExtendsIsValid(head, earlier);
      ControllerOfRecord(head, earlier);
      if earlier != head { EpochsIncrease(head, earlier); }
    }
  }

  /** A lease issued at some point of a log's growth reads as current exactly while nothing was
      installed since, and then still grants the log's current roles. */
  lemma LeaseIsExact(log: Log, lease: Lease, earlier: seq<SignedRecord>)
    requires log.Valid() && earlier <= log.records && IssuedAt(lease, earlier)
    ensures log.IsCurrent(lease) <==> log.records == earlier
    ensures log.IsCurrent(lease) ==> lease.head == log.head && lease.roster == log.current.roster
  {
    SequenceCounts(log.records, log.root);
  }

  /** Capture a lease, let any number of updates arrive, and look at the lease again: it is current
      exactly when none of them was installed. */
  method LeaseAcrossUpdates(log: Log, context: Context, updates: seq<(SignedRecord, Context)>)
    returns (lease: Option<Lease>, installed: nat, current: bool)
    requires log.Valid()
    modifies log
    ensures log.Valid() && old(log.records) <= log.records && |log.records| == |old(log.records)| + installed
    ensures lease.Some? ==> (current <==> installed == 0)
    ensures lease.Some? && current ==> lease.value.head == log.head && lease.value.roster == log.current.roster
  {
    lease := log.Capture(context);
    installed := 0;
    ghost var before := log.records;
    for i := 0 to |updates|
      invariant log.Valid() && before <= log.records && |log.records| == |before| + installed
    {
      var ok := log.ApplyUpdate(updates[i].0, updates[i].1);
      if ok { installed := installed + 1; }
    }
    current := lease.Some? && log.IsCurrent(lease.value);
    if lease.Some? { LeaseIsExact(log, lease.value, before); }
  }

  /** All of a log's fields are determined by its records, so a log restored from what another
      exports has the same head, revision, controllers and answers. */
  lemma RecordsDetermineLog(a: Log, b: Log)
    requires a.Valid() && b.Valid() && a.records == b.records
    ensures a.root == b.root && a.head == b.head && a.revision == b.revision && a.current == b.current
    ensures a.controllers == b.controllers && a.verifiedHeads == b.verifiedHeads && a.historyBytes == b.historyBytes
  {}

  /** A bound control head keeps its controller however the log grows. */
  lemma ControllersAreForever(records: seq<SignedRecord>, longer: seq<SignedRecord>, pin: AuthorityHead, i: nat)
    requires Acceptable(records, pin) && Acceptable(longer, pin) && Unsigned(records) <= Unsigned(longer) && i < |records|
    ensures var control := records[i].record.context.controlHead;
      && RosterValid(records[i].record.roster)
      && control in Controllers(HeadOf(longer))
      && Controllers(HeadOf(longer))[control] == Controller(records[i].record.roster)
  {
    var bound := AuthorityDigest(records[i].record);
    HeadIsRecord(records, pin, bound);
    ExtendsIffPrefix(HeadOf(longer), HeadOf(records));
    ExtendsTransitive(HeadOf(longer), HeadOf(records), bound);
    ControllerOfRecord(HeadOf(longer), bound);
  }

  /** Some record of the log names this control head and this controller. */
  ghost predicate Controls(records: seq<SignedRecord>, control: nat, actor: Member) {
    exists i :: 0 <= i < |records| && records[i].record.context.controlHead == control
                && RosterValid(records[i].record.roster) && Controller(records[i].record.roster) == actor
  }

  lemma BoundControllers(records: seq<SignedRecord>, pin: AuthorityHead, control: nat, actor: Member)
    requires Acceptable(records, pin)
    ensures control in Controllers(HeadOf(records)) && Controllers(HeadOf(records))[control] == actor <==> Controls(records, control, actor)
  {
    var head := HeadOf(records);
    if control in Controllers(head) {
      ControllerIsOfRecord(head, control);
      var r :| r in Records(head) && r.context.controlHead == control && RosterValid(r.roster) && Controllers(head)[control] == Controller(r.roster);
      var i :| 0 <= i < |records| && Unsigned(records)[i] == r;
      assert records[i].record == r;
    }
    if Controls(records, control, actor) {
      var i :| 0 <= i < |records| && records[i].record.context.controlHead == control
               && RosterValid(records[i].record.roster) && Controller(records[i].record.roster) == actor;
      ControllersAreForever(records, records, pin, i);
    }
  }

  // ---------------------------------------------------------------- what a history is, spelled out

  /** Record i, spelled out: the first is the pinned genesis, signed by its own controller; each later one
      follows the one before in the same document and group, in a newer epoch, under a control head no
      earlier record used, signed by the controller of the one before. */
  ghost predicate RecordAllowed(records: seq<SignedRecord>, i: nat, pin: AuthorityHead)
    requires i < |records|
  {
    var r := records[i].record;
    && 1 <= records[i].length <= 1048576 && HasController(r.roster) && r.sequence == i + 1
    && if i == 0 then AuthorityDigest(r) == pin && r.parent == NoAuthority && ControlledBy(r.roster, records[i].signer)
       else
         var p := records[i - 1].record;
         && r.parent == AuthorityDigest(p) && r.documentId == p.documentId
         && r.context.group == p.context.group && r.context.epoch > p.context.epoch
         && ControlledBy(p.roster, records[i].signer)
         && forall j :: 0 <= j < i ==> records[j].record.context.controlHead != r.context.controlHead
  }

  lemma ControlIsFresh(records: seq<SignedRecord>, control: nat)
    ensures (forall r :: r in Unsigned(records) ==> r.context.controlHead != control) <==>
              forall j :: 0 <= j < |records| ==> records[j].record.context.controlHead != control
  {
    forall j | 0 <= j < |records| ensures records[j].record in Unsigned(records) {
      assert Unsigned(records)[j] == records[j].record;
    }
  }

  /** The newest record as a history sees it. */
  lemma NewestRecord(records: seq<SignedRecord>, pin: AuthorityHead)
    requires Acceptable(records, pin)
    ensures var h := HeadOf(records);
      && ValidHistory(h) && h.AuthorityDigest? && h.record == records[|records| - 1].record
      && Records(h) == Unsigned(records) && |Records(h)| == |records| && RosterValid(h.record.roster)
  {}

  /** What the update check asks of the next record of a history. */
  lemma NextIsAllowed(records: seq<SignedRecord>, r: SignedRecord, pin: AuthorityHead)
    requires Acceptable(records, pin)
    ensures NextOk(records, r) <==>
              && |records| < 1024 && HistoryBytes(records) + r.length <= 16777216 && RecordAllowed(records + [r], |records|, pin)
  {
    NewestRecord(records, pin);
    MayFollowIff(HeadOf(records), r.record);
    ControlIsFresh(records, r.record.context.controlHead);
    ControlledIff(r.record.roster, r.signer);
    ControlledIff(records[|records| - 1].record.roster, r.signer);
    LastAllowed(records, r, pin);
  }

  /** The condition on a record put at the end of a list. */
  lemma LastAllowed(records: seq<SignedRecord>, r: SignedRecord, pin: AuthorityHead)
    requires records != []
    ensures var p, q := records[|records| - 1].record, r.record;
      RecordAllowed(records + [r], |records|, pin) <==>
        && 1 <= r.length <= 1048576 && HasController(q.roster) && q.sequence == |records| + 1
        && q.parent == AuthorityDigest(p) && q.documentId == p.documentId
        && q.context.group == p.context.group && q.context.epoch > p.context.epoch && ControlledBy(p.roster, r.signer)
        && forall j :: 0 <= j < |records| ==> records[j].record.context.controlHead != q.context.controlHead
  {
    var all := records + [r];
    assert all[|records|] == r && all[|records| - 1] == records[|records| - 1];
    assert forall j :: 0 <= j < |records| ==> all[j] == records[j];
  }

  lemma FirstIsAllowed(r: SignedRecord, pin: AuthorityHead)
    ensures FirstOk(r, pin) <==> RecordAllowed([r], 0, pin)
  {
    ControlledIff(r.record.roster, r.signer);
  }

  lemma AllowedPrefix(records: seq<SignedRecord>, r: SignedRecord, pin: AuthorityHead)
    ensures (forall i :: 0 <= i < |records| + 1 ==> RecordAllowed(records + [r], i, pin)) <==>
              && (forall i :: 0 <= i < |records| ==> RecordAllowed(records, i, pin))
              && RecordAllowed(records + [r], |records|, pin)
  {
    var all := records + [r];
    forall i | 0 <= i < |records| ensures RecordAllowed(all, i, pin) <==> RecordAllowed(records, i, pin) {
      assert forall j :: 0 <= j <= i ==> all[j] == records[j];
    }
  }

  ghost predicate AllAllowed(records: seq<SignedRecord>, pin: AuthorityHead) {
    && 1 <= |records| <= 1024 && HistoryBytes(records) <= 16777216
    && forall i :: 0 <= i < |records| ==> RecordAllowed(records, i, pin)
  }

  lemma AcceptableStep(front: seq<SignedRecord>, r: SignedRecord, pin: AuthorityHead)
    requires front != []
    ensures Acceptable(front + [r], pin) <==>
              && Acceptable(front, pin) && |front| < 1024 && HistoryBytes(front) + r.length <= 16777216
              && RecordAllowed(front + [r], |front|, pin)
  {
    if Acceptable(front + [r], pin) { AcceptablePrefix(front, r, pin); }
    if Acceptable(front, pin) {
      NextIsAllowed(front, r, pin);
      if NextOk(front, r) { AppendAcceptable(front, r, pin); }
    }
  }

  lemma OneAllowed(r: SignedRecord, pin: AuthorityHead)
    ensures Acceptable([r], pin) <==> AllAllowed([r], pin)
  {
    FirstAcceptable(r, pin);
    FirstIsAllowed(r, pin);
    HeadAppend([], r);
    assert [] + [r] == [r];
  }

  lemma AllAllowedStep(front: seq<SignedRecord>, r: SignedRecord, pin: AuthorityHead)
    requires front != []
    ensures AllAllowed(front + [r], pin) <==>
              && AllAllowed(front, pin) && |front| < 1024 && HistoryBytes(front) + r.length <= 16777216
              && RecordAllowed(front + [r], |front|, pin)
  {
    AllowedPrefix(front, r, pin);
    HeadAppend(front, r);
  }

  lemma AcceptableAppend(front: seq<SignedRecord>, r: SignedRecord, records: seq<SignedRecord>, pin: AuthorityHead)
    requires front != [] && records == front + [r] && (Acceptable(front, pin) <==> AllAllowed(front, pin))
    ensures Acceptable(records, pin) <==> AllAllowed(records, pin)
  {
    AcceptableStep(front, r, pin);
    AllAllowedStep(front, r, pin);
  }

  lemma NoneAcceptable(pin: AuthorityHead)
    ensures !Acceptable([], pin) && !AllAllowed([], pin)
  {}

  /** A list of records restores exactly when every one of them is allowed where it stands and they stay
      within 1024 records and 16 MiB. */
  lemma {:induction false} AcceptableIff(records: seq<SignedRecord>, pin: AuthorityHead)
    ensures Acceptable(records, pin) <==> AllAllowed(records, pin)
    decreases |records|
  {
    if |records| == 0 {
      NoneAcceptable(pin);
      assert records == [];
    } else if |records| == 1 {
      OneAllowed(records[0], pin);
      assert records == [records[0]];
    } else {
      AcceptableIff(records[..|records| - 1], pin);
      SplitLast(records);
      AcceptableAppend(records[..|records| - 1], records[|records| - 1], records, pin);
    }
  }

  /** The group and first controller a history starts with. */
  ghost predicate StartsWith(records: seq<SignedRecord>, group: nat, controller: Member) {
    && records != [] && records[0].record.context.group == group
    && RosterValid(records[0].record.roster) && Controller(records[0].record.roster) == controller
  }

  /** A history never leaves the group it starts with. */
  lemma {:induction false} OneGroup(records: seq<SignedRecord>, pin: AuthorityHead, i: nat)
    requires Acceptable(records, pin) && i < |records|
    ensures records[i].record.context.group == records[0].record.context.group
    decreases |records|
  {
    if |records| > 1 {
      var front, last := records[..|records| - 1], records[|records| - 1];
      SplitLast(records);
      AcceptablePrefix(front, last, pin);
      assert front[0] == records[0];
      if i < |front| { OneGroup(front, pin, i); } else { OneGroup(front, pin, |front| - 1); }
    }
  }

  lemma FirstIsStart(records: seq<SignedRecord>, pin: AuthorityHead)
    requires Acceptable(records, pin)
    ensures RosterValid(records[0].record.roster)
  {
    assert records[..1] == [records[0]];
    PrefixAcceptable(records, 1, pin);
    FirstAcceptable(records[0], pin);
  }

  /** Group authorization from the role history: the actor must be the controller bound to the
      previous control head, or the initial controller creating the group. */
  class ControlAuthority {
    const group: nat
    const controller: Member
    var log: Log?

    /** The bound log is the history of this authority's group, from its first controller on. */
    ghost predicate Valid()
      reads this, log
    {
      log != null ==> log.Valid() && StartsWith(log.records, group, controller)
    }

    constructor (group: nat, controller: Member)
      ensures Valid() && this.group == group && this.controller == controller && log == null
    {
      this.group, this.controller, log := group, controller, null;
    }

    /** Bind the log whose first record names this group and controller, once. */
    method Bind(l: Log) returns (ok: bool)
      requires Valid() && l.Valid()
      modifies this
      ensures Valid()
      ensures ok <==> old(log) == null && StartsWith(l.records, group, controller)
      ensures log == if ok then l else old(log)
    {
      var first := l.records[0].record;
      FirstIsStart(l.records, l.root);
      var c := FindController(first.roster);
      ok := log == null && first.context.group == group && c == controller;
      if ok { log := l; }
    }

    /** After creation, an actor is authorized exactly when a record of the bound history gave it
        control at the previous control head. */
    method Authorize(group: nat, create: bool, previous: Option<nat>, actor: Member) returns (ok: bool)
      requires Valid()
      ensures ok <==>
                && group == this.group
                && (previous.Some? ==> log != null && Controls(log.records, previous.value, actor))
                && (previous.None? ==> create && actor == controller)
    {
      if group != this.group { return false; }
      if previous.Some? {
        if log == null { return false; }
        BoundControllers(log.records, log.root, previous.value, actor);
        var bound := log.ControllerAtHead(previous.value);
        ok := bound == Some(actor);
      } else {
        ok := create && actor == controller;
      }
    }
  }

  /** Restore a log and bind the control authority to it. This succeeds exactly on one valid signed
      history from the pinned genesis that starts with the authority's group and controller, when the
      authority is not bound yet; otherwise nothing changes. */
  method Restore(records: seq<SignedRecord>, pin: AuthorityHead, authority: ControlAuthority) returns (log: Log?)
    requires authority.Valid()
    modifies authority
    ensures authority.Valid()
    ensures log != null <==>
              && Acceptable(records, pin) && old(authority.log) == null
              && StartsWith(records, authority.group, authority.controller)
    ensures log != null ==> fresh(log) && log.Valid() && log.records == records && log.root == pin
    ensures authority.log == if log != null then log else old(authority.log)
  {
    log := ReadRecords(records, pin);
    if log != null {
      var bound := authority.Bind(log);
      if !bound { log := null; }
    }
  }

  /** Whatever updates reach a bound log, its authority stays valid: every record is of the authority's
      group, and the first still names its controller. */
  method UpdateBound(authority: ControlAuthority, log: Log, updates: seq<(SignedRecord, Context)>)
    requires authority.Valid() && authority.log == log
    modifies log
    ensures authority.Valid() && old(log.records) <= log.records
    ensures forall i :: 0 <= i < |log.records| ==> log.records[i].record.context.group == authority.group
  {
    ghost var before := log.records;
    for n := 0 to |updates|
      invariant authority.Valid() && before <= log.records && log.records[0] == before[0]
    {
      var ok := log.ApplyUpdate(updates[n].0, updates[n].1);
    }
    forall i | 0 <= i < |log.records| ensures log.records[i].record.context.group == authority.group {
      OneGroup(log.records, log.root, i);
    }
  }

  /** Restoring what a log exports, for an authority of its group and first controller, always succeeds
      and reproduces every field. */
  method RestoreExported(log: Log) returns (copy: Log?, authority: ControlAuthority)
    requires log.Valid()
    ensures copy != null && fresh(copy) && copy.Valid() && authority.Valid() && authority.log == copy
    ensures copy.records == log.records && copy.root == log.root
    ensures copy.head == log.head && copy.revision == log.revision && copy.current == log.current
    ensures copy.controllers == log.controllers && copy.verifiedHeads == log.verifiedHeads
  {
    FirstIsStart(log.records, log.root);
    var controller := FindController(log.records[0].record.roster);
    authority := new ControlAuthority(log.records[0].record.context.group, controller);
    copy := Restore(log.records, log.root, authority);
    RecordsDetermineLog(log, copy);
  }
}
