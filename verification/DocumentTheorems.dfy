/** What every run of a document over its journal keeps, with the store in anybody's hands. */
module DocumentTheorems {
  import opened Common
  import opened DocumentTypes
  import opened AuthorityHistory
  import opened ReplayJournal
  import opened JournalStoreSpec
  import opened DocumentState
  import opened AcceptedChain
  import opened DocumentRun
  import opened DocumentSafety

  // ---------------------------------------------------------------- the anchor only climbs

  /** Reaching a commitment means keeping its whole history as a prefix. */
  lemma {:induction false} ReachesKeepsHistory(d: Commitment, c: Commitment)
    requires Reaches(d, c)
    ensures Ancestry(c) <= Ancestry(d)
  {
    if c != d { ReachesKeepsHistory(d.entry.payload.parent, c); }
  }

  /** Only two steps move the anchor; no step takes back a release or renames the device. */
  lemma StepKeeps(w: World, s: Step, w': World)
    requires Do(w, s) == Some(w')
    ensures w'.device.initial == w.device.initial && w'.device.local == w.device.local
    ensures w.released <= w'.released
    ensures !s.RestoreSwap? && !s.AnchorSwap? ==> w'.anchor == w.anchor
  {}

  lemma AnchorStep(w: World, s: Step, w': World)
    requires Shared(w) && Do(w, s) == Some(w')
    ensures AnchorCommitment(w'.anchor) == AnchorCommitment(w.anchor)
            || (w'.anchor.Some? && w'.anchor.value.commitment.Digest? && w'.anchor.value.commitment.entry.Entry?
                && w'.anchor.value.commitment.entry.payload.parent == AnchorCommitment(w.anchor))
  {
    StepKeeps(w, s, w');
  }

  /** No crash, no replaced store and no retry ever takes an accepted entry back, or a release. */
  lemma {:induction false} AcceptedHistoryIsAppendOnly(ws: seq<World>, steps: seq<Step>, i: nat, j: nat)
    requires Run(ws, steps) && i <= j < |ws|
    ensures Reaches(AnchorCommitment(ws[j].anchor), AnchorCommitment(ws[i].anchor))
    ensures Ancestry(AnchorCommitment(ws[i].anchor)) <= Ancestry(AnchorCommitment(ws[j].anchor))
    ensures ws[i].released <= ws[j].released
    ensures ws[i].device.initial == ws[j].device.initial && ws[i].device.local == ws[j].device.local
    decreases j - i
  {
    if i < j {
      AcceptedHistoryIsAppendOnly(ws, steps, i, j - 1);
      SafeRun(ws, steps, j - 1);
      AnchorStep(ws[j - 1], steps[j - 1], ws[j]);
      StepKeeps(ws[j - 1], steps[j - 1], ws[j]);
      var a, b, c := AnchorCommitment(ws[i].anchor), AnchorCommitment(ws[j - 1].anchor), AnchorCommitment(ws[j].anchor);
      assert Reaches(c, b);
      ReachesTransitive(c, b, a);
    }
    ReachesKeepsHistory(AnchorCommitment(ws[j].anchor), AnchorCommitment(ws[i].anchor));
  }

  // ---------------------------------------------------------------- no self-equivocation

  /** Every frame this member ever releases is recorded by an accepted entry under the anchor, and
      any two with one group context and one sequence have the same content. */
  lemma NoSelfEquivocation(ws: seq<World>, steps: seq<Step>, i: nat, j: nat, f: Frame, g: Frame)
    requires Run(ws, steps) && i <= j < |ws|
    requires f in ws[i].released && g in ws[j].released
    ensures InChain(ws[j].device.minted, AnchorCommitment(ws[j].anchor), f.content)
    ensures InChain(ws[j].device.minted, AnchorCommitment(ws[j].anchor), g.content)
    ensures f.content.context == g.content.context && f.content.sequence == g.content.sequence ==>
              ContentDigest(f.content) == ContentDigest(g.content)
  {
    AcceptedHistoryIsAppendOnly(ws, steps, i, j);
    SafeRun(ws, steps, j);
    var d, c := ws[j].device, AnchorCommitment(ws[j].anchor);
    if f.content.context == g.content.context && f.content.sequence == g.content.sequence {
      ChainNeverEquivocates(d.initial, d.minted, d.publications, c, f.content, g.content);
    }
  }

  // ---------------------------------------------------------------- exactly once, in order

  /** How often the chain behind `c` records the frame. */
  function TimesApplied(minted: Minted, c: Commitment, x: Content): nat {
    if c.Digest? && c.entry.Entry? then
      TimesApplied(minted, c.entry.payload.parent, x) + (if c.entry in minted && minted[c.entry] == Some(x) then 1 else 0)
    else 0
  }

  lemma {:induction false} AppliedAtMostOnce(initial: set<Change>, minted: Minted, publications: AcceptedChain.Sealed, c: Commitment, x: Content)
    requires MintedOk(initial, minted, publications) && Known(minted, c)
    ensures TimesApplied(minted, c, x) == if InChain(minted, c, x) then 1 else 0
    decreases c
  {
    if c.Digest? {
      assert EntryOk(initial, minted, publications, c.entry);
      AppliedAtMostOnce(initial, minted, publications, c.entry.payload.parent, x);
      if minted[c.entry] == Some(x) && InChain(minted, c.entry.payload.parent, x) {
        NewFrameIsNewer(initial, minted, publications, c.entry, x, x);
      }
    }
  }

  /** A frame on a chain after `y` was accepted is `y` or was on that chain before. */
  lemma ChainBefore(st: DocState, y: Content, m: Member, x: Content)
    requires FrameFollows(st, y) && m in AfterFrame(st, y).receipts && OnChain(AfterFrame(st, y).receipts[m].hash, x)
    ensures x == y || (m in st.receipts && OnChain(st.receipts[m].hash, x))
  {}

  /** Every frame on a receipt chain was applied. */
  lemma {:induction false} ReceiptChainApplied(initial: set<Change>, minted: Minted, publications: AcceptedChain.Sealed, c: Commitment, m: Member, x: Content)
    requires MintedOk(initial, minted, publications) && Known(minted, c)
    requires m in StateAt(initial, c).receipts && OnChain(StateAt(initial, c).receipts[m].hash, x)
    ensures InChain(minted, c, x)
    decreases c
  {
    var e := c.entry;
    assert EntryOk(initial, minted, publications, e);
    var parent := e.payload.parent;
    KnownState(initial, minted, publications, parent);
    TransitionState(initial, parent, e.payload.body.checkpoint, ItemOf(e), minted[e]);
    if minted[e] != Some(x) {
      ChainBefore(StateAt(initial, parent), minted[e].value, m, x);
      ReceiptChainApplied(initial, minted, publications, parent, m, x);
    }
  }

  /** The document holds the initial changes and those of the recorded frames, nothing else. */
  lemma {:induction false} DocumentIsUnion(initial: set<Change>, minted: Minted, publications: AcceptedChain.Sealed, c: Commitment, k: Change)
    requires MintedOk(initial, minted, publications) && Known(minted, c)
    ensures k in StateAt(initial, c).document <==> k in initial || exists x :: InChain(minted, c, x) && k in x.changes
    decreases c
  {
    if c.Digest? {
      var e := c.entry;
      assert EntryOk(initial, minted, publications, e);
      var parent := e.payload.parent;
      DocumentIsUnion(initial, minted, publications, parent, k);
      KnownState(initial, minted, publications, parent);
      TransitionState(initial, parent, e.payload.body.checkpoint, ItemOf(e), minted[e]);
      if k in StateAt(initial, parent).document && k !in initial {
        var x :| InChain(minted, parent, x) && k in x.changes;
        assert InChain(minted, c, x);
      }
      if minted[e].Some? {
        assert InChain(minted, c, minted[e].value);
      }
    }
  }

  /** A recorded frame ends a gap-free chain from sequence 1 in its own context, and everything on that
      chain is recorded too, whichever contexts came later. */
  lemma {:induction false} RecordedIsChained(initial: set<Change>, minted: Minted, publications: AcceptedChain.Sealed, c: Commitment, x: Content, y: Content)
    requires MintedOk(initial, minted, publications) && Known(minted, c) && InChain(minted, c, x)
    ensures HashChain(ContentDigest(x), x.sequence, x.member, x.context)
    ensures OnChain(ContentDigest(x), y) ==> InChain(minted, c, y)
    decreases c
  {
    var e := c.entry;
    assert EntryOk(initial, minted, publications, e);
    var parent := e.payload.parent;
    if minted[e] == Some(x) {
      KnownState(initial, minted, publications, parent);
      NewFrameIsChained(initial, minted, publications, parent, x, y);
    } else {
      RecordedIsChained(initial, minted, publications, parent, x, y);
    }
  }

  lemma NewFrameIsChained(initial: set<Change>, minted: Minted, publications: AcceptedChain.Sealed, parent: Commitment, x: Content, y: Content)
    requires MintedOk(initial, minted, publications) && Known(minted, parent)
    requires ReceiptsChained(StateAt(initial, parent)) && FrameFollows(StateAt(initial, parent), x)
    ensures HashChain(ContentDigest(x), x.sequence, x.member, x.context)
    ensures OnChain(ContentDigest(x), y) ==> y == x || InChain(minted, parent, y)
  {
    var st := StateAt(initial, parent);
    FrameExtendsChain(st, x);
    if OnChain(x.parent, y) { ReceiptChainApplied(initial, minted, publications, parent, x.member, y); }
  }

  /** In every state of every run and for every context and author, the frames applied form one
      gap-free hash chain: each recorded frame ends a chain 1..n of frames that were each applied
      exactly once, and it has every earlier frame of that author and context on it. */
  lemma EveryContextIsOneChain(ws: seq<World>, steps: seq<Step>, i: nat, x: Content, y: Content)
    requires Run(ws, steps) && i < |ws|
    requires InChain(ws[i].device.minted, AnchorCommitment(ws[i].anchor), x)
    ensures var minted, c := ws[i].device.minted, AnchorCommitment(ws[i].anchor);
      && HashChain(ContentDigest(x), x.sequence, x.member, x.context)
      && (OnChain(ContentDigest(x), y) ==> InChain(minted, c, y) && TimesApplied(minted, c, y) == 1)
      && (InChain(minted, c, y) && y.member == x.member && y.context == x.context && y.sequence <= x.sequence ==>
            OnChain(ContentDigest(x), y))
  {
    SafeRun(ws, steps, i);
    var d, c := ws[i].device, AnchorCommitment(ws[i].anchor);
    RecordedIsChained(d.initial, d.minted, d.publications, c, x, y);
    AppliedAtMostOnce(d.initial, d.minted, d.publications, c, y);
    if InChain(d.minted, c, y) && y.member == x.member && y.context == x.context && y.sequence <= x.sequence {
      EarlierIsOnChain(d, c, x, y);
    }
  }

  lemma EarlierIsOnChain(d: Device, c: Commitment, x: Content, y: Content)
    requires DeviceOk(d) && Known(d.minted, c) && InChain(d.minted, c, x) && InChain(d.minted, c, y)
    requires y.member == x.member && y.context == x.context && y.sequence <= x.sequence
    ensures OnChain(ContentDigest(x), y)
  {
    RecordedIsChained(d.initial, d.minted, d.publications, c, x, x);
    RecordedIsChained(d.initial, d.minted, d.publications, c, y, y);
    ChainHasNoGap(ContentDigest(x), x.sequence, x.member, x.context, y.sequence);
    var z :| OnChain(ContentDigest(x), z) && z.sequence == y.sequence;
    OnChainBelow(ContentDigest(x), x.sequence, x.member, x.context, z);
    RecordedIsChained(d.initial, d.minted, d.publications, c, x, z);
    ChainNeverEquivocates(d.initial, d.minted, d.publications, c, y, z);
  }

  /** Whether the document is open and no operation is in flight. */
  predicate Quiet(w: World) { w.phase.Idle? }

  /** In every quiet state of every run: an author's accepted frames in the current context are a
      gap-free hash chain 1..n, each applied exactly once, and they are exactly the recorded ones. */
  lemma ExactlyOnceInOrder(ws: seq<World>, steps: seq<Step>, i: nat, m: Member, x: Content)
    requires Run(ws, steps) && i < |ws| && Quiet(ws[i])
    requires m in ws[i].phase.live.doc.receipts
    ensures var st, c := ws[i].phase.live.doc, AnchorCommitment(ws[i].anchor);
      && st.context.Some?
      && HashChain(st.receipts[m].hash, st.receipts[m].sequence, m, st.context.value)
      && (OnChain(st.receipts[m].hash, x)
          <==> InChain(ws[i].device.minted, c, x) && x.member == m && x.context == st.context.value)
      && (OnChain(st.receipts[m].hash, x) ==> TimesApplied(ws[i].device.minted, c, x) == 1)
  {
    SafeRun(ws, steps, i);
    var d, c, st := ws[i].device, AnchorCommitment(ws[i].anchor), ws[i].phase.live.doc;
    KnownState(d.initial, d.minted, d.publications, c);
    var r := st.receipts[m];
    AppliedAtMostOnce(d.initial, d.minted, d.publications, c, x);
    if OnChain(r.hash, x) {
      ReceiptChainApplied(d.initial, d.minted, d.publications, c, m, x);
      OnChainBelow(r.hash, r.sequence, m, st.context.value, x);
    } else if InChain(d.minted, c, x) && x.member == m && x.context == st.context.value {
      FrameIsCovered(d.initial, d.minted, d.publications, c, x);
    }
  }

  /** A member without a receipt has no recorded frame in the current context. */
  lemma NoReceiptNoFrame(ws: seq<World>, steps: seq<Step>, i: nat, x: Content)
    requires Run(ws, steps) && i < |ws| && Quiet(ws[i])
    requires InChain(ws[i].device.minted, AnchorCommitment(ws[i].anchor), x)
    requires ws[i].phase.live.doc.context == Some(x.context)
    ensures x.member in ws[i].phase.live.doc.receipts
  {
    SafeRun(ws, steps, i);
    var d := ws[i].device;
    FrameIsCovered(d.initial, d.minted, d.publications, AnchorCommitment(ws[i].anchor), x);
  }

  lemma FrameOnChainIsReplay(st: DocState, x: Content)
    requires ReceiptsChained(st) && st.context == Some(x.context)
    requires x.member in st.receipts && OnChain(st.receipts[x.member].hash, x)
    ensures AdmitContent(st, x) == Replay && !Equivocates(st, x)
  {
    var r := st.receipts[x.member];
    OnChainBelow(r.hash, r.sequence, x.member, x.context, x);
    if r.sequence == x.sequence { ChainIsFunctional(r.hash, r.sequence, x.member, x.context, x, r.hash.content); }
  }

  /** While the authority still stands at the head a recorded frame was written under, that frame's
      context is the document's. */
  lemma RecordedFrameIsCurrent(d: Device, c: Commitment, authority: AuthorityHead, x: Content)
    requires DeviceOk(d) && Known(d.minted, c) && AuthorityOk(authority, c)
    requires InChain(d.minted, c, x) && x.authorityHead == authority
    ensures StateAt(d.initial, c).context == Some(x.context)
    ensures x.member in StateAt(d.initial, c).receipts
    ensures AdmitContent(StateAt(d.initial, c), x) == Replay && !Equivocates(StateAt(d.initial, c), x)
  {
    KnownState(d.initial, d.minted, d.publications, c);
    FrameIsCovered(d.initial, d.minted, d.publications, c, x);
    HeadBetween(authority, AuthorityAt(c), x.authorityHead);
    FrameOnChainIsReplay(StateAt(d.initial, c), x);
  }

  // ---------------------------------------------------------------- who may author

  /** The frame is written under this authority head, by a member that has role 2 or 3 there. */
  predicate WriterUnder(authority: AuthorityHead, x: Content) {
    && authority.AuthorityDigest? && x.authorityHead == authority && x.context == authority.record.context
    && x.member in authority.record.roster
    && (authority.record.roster[x.member] == 2 || authority.record.roster[x.member] == 3)
  }

  lemma AuthorizedIsWriter(authority: AuthorityHead, x: Content)
    requires authority.AuthorityDigest? ==> ValidHistory(authority)
    ensures Authorized(authority, x) <==> WriterUnder(authority, x)
  {}

  /** Every frame recorded behind a sealed commitment was written under the head it names, by a member
      that was a writer or the controller there. */
  lemma {:induction false} RecordedByWriter(initial: set<Change>, minted: Minted, publications: AcceptedChain.Sealed, c: Commitment, x: Content)
    requires MintedOk(initial, minted, publications) && Known(minted, c) && InChain(minted, c, x)
    ensures WriterUnder(x.authorityHead, x) && Extends(AuthorityAt(c), x.authorityHead)
    decreases c
  {
    assert EntryOk(initial, minted, publications, c.entry);
    FrameIsCovered(initial, minted, publications, c, x);
    if minted[c.entry] != Some(x) { RecordedByWriter(initial, minted, publications, c.entry.payload.parent, x); }
  }

  /** In every state of every run, each recorded frame has an author with role 2 or 3 in the role record
      it was written under. */
  lemma OnlyWritersAreRecorded(ws: seq<World>, steps: seq<Step>, i: nat, x: Content)
    requires Run(ws, steps) && i < |ws| && InChain(ws[i].device.minted, AnchorCommitment(ws[i].anchor), x)
    ensures x.authorityHead.AuthorityDigest? && x.context == x.authorityHead.record.context
    ensures var roster := x.authorityHead.record.roster;
      x.member in roster && (roster[x.member] == 2 || roster[x.member] == 3)
  {
    SafeRun(ws, steps, i);
    var d := ws[i].device;
    RecordedByWriter(d.initial, d.minted, d.publications, AnchorCommitment(ws[i].anchor), x);
  }

  /** In a quiet state a frame under another head or context, or by a member without role 2 or 3, is
      refused; so is a local change by such a member. */
  lemma ReadersAreRefused(ws: seq<World>, steps: seq<Step>, i: nat, x: Content, draw: Draw,
                          changes: set<Change>, persist: bool, nonce: nat, length: nat)
    requires Run(ws, steps) && i < |ws| && Quiet(ws[i])
    ensures !WriterUnder(ws[i].phase.live.authority, x) ==> Do(ws[i], Receive(x, draw)) == None
    ensures var authority, local := ws[i].phase.live.authority, ws[i].device.local;
      && authority.AuthorityDigest?
      && (!(local in authority.record.roster && (authority.record.roster[local] == 2 || authority.record.roster[local] == 3)) ==>
            Do(ws[i], Step.Change(changes, persist, nonce, length, draw)) == None)
  {
    SafeRun(ws, steps, i);
    AuthorizedIsWriter(ws[i].phase.live.authority, x);
  }

  /** Delivering a recorded frame again, in any order and any number of times, changes nothing. */
  lemma ReplayChangesNothing(ws: seq<World>, steps: seq<Step>, i: nat, x: Content, draw: Draw)
    requires Run(ws, steps) && i < |ws| && Quiet(ws[i])
    requires InChain(ws[i].device.minted, AnchorCommitment(ws[i].anchor), x)
    requires WriterUnder(ws[i].phase.live.authority, x)
    ensures Do(ws[i], Receive(x, draw)) == Some(ws[i])
  {
    SafeRun(ws, steps, i);
    RecordedFrameIsCurrent(ws[i].device, AnchorCommitment(ws[i].anchor), ws[i].phase.live.authority, x);
  }

  /** A recorded frame of the author and context of `x`, at a given sequence. */
  predicate RecordedAt(minted: Minted, c: Commitment, x: Content, y: Content, sequence: int) {
    InChain(minted, c, y) && y.member == x.member && y.context == x.context && y.sequence == sequence
  }

  ghost predicate NoneAt(minted: Minted, c: Commitment, x: Content, sequence: int) {
    forall y :: !RecordedAt(minted, c, x, y, sequence)
  }

  /** Against what the accepted chain records, the frame skips a sequence number, does not continue its
      author's newest frame, or contradicts that newest frame. */
  ghost predicate OutOfOrder(minted: Minted, c: Commitment, x: Content) {
    || (x.sequence >= 2 && NoneAt(minted, c, x, x.sequence - 1))
    || (x.sequence == 1 && NoneAt(minted, c, x, 1) && x.parent != ZeroHash)
    || (NoneAt(minted, c, x, x.sequence)
        && exists y :: RecordedAt(minted, c, x, y, x.sequence - 1) && x.parent != ContentDigest(y))
    || (NoneAt(minted, c, x, x.sequence + 1)
        && exists y :: RecordedAt(minted, c, x, y, x.sequence) && y != x)
  }

  /** No frame of a context is recorded until the document has reached that context. */
  lemma RecordedContextIsReached(d: Device, c: Commitment, authority: AuthorityHead, y: Content)
    requires DeviceOk(d) && Known(d.minted, c) && AuthorityOk(authority, c) && InChain(d.minted, c, y)
    requires y.context == authority.record.context
    ensures StateAt(d.initial, c).context == Some(y.context)
  {
    KnownState(d.initial, d.minted, d.publications, c);
    FrameIsCovered(d.initial, d.minted, d.publications, c, y);
    ExtendsTransitive(authority, AuthorityAt(c), y.authorityHead);
    ContextIdentifiesHead(authority, y.authorityHead);
    HeadBetween(authority, AuthorityAt(c), y.authorityHead);
  }

  /** The receipt admission looks at is the newest recorded frame of that author and context. */
  lemma ReceiptIsNewest(d: Device, c: Commitment, authority: AuthorityHead, x: Content, y: Content)
    requires DeviceOk(d) && Known(d.minted, c) && AuthorityOk(authority, c) && x.context == authority.record.context
    ensures var receipts := ReceiptsIn(StateAt(d.initial, c), x.context);
      var n, h := AcceptedSequence(receipts, x.member), AcceptedHash(receipts, x.member);
      && HashChain(h, n, x.member, x.context)
      && (x.member in receipts <==> n >= 1)
      && (n >= 1 ==> h.ContentDigest? && RecordedAt(d.minted, c, x, h.content, n))
      && (InChain(d.minted, c, y) && y.member == x.member && y.context == x.context ==> 1 <= y.sequence <= n)
  {
    var st := StateAt(d.initial, c);
    KnownState(d.initial, d.minted, d.publications, c);
    var receipts := ReceiptsIn(st, x.context);
    if x.member in receipts {
      ReceiptChainApplied(d.initial, d.minted, d.publications, c, x.member, receipts[x.member].hash.content);
    }
    if InChain(d.minted, c, y) && y.member == x.member && y.context == x.context {
      RecordedContextIsReached(d, c, authority, y);
      FrameIsCovered(d.initial, d.minted, d.publications, c, y);
      OnChainBelow(receipts[x.member].hash, receipts[x.member].sequence, x.member, x.context, y);
    }
  }

  /** Recorded sequence numbers are exactly 1..n. */
  lemma RecordedUpTo(d: Device, c: Commitment, authority: AuthorityHead, x: Content, k: int)
    requires DeviceOk(d) && Known(d.minted, c) && AuthorityOk(authority, c) && x.context == authority.record.context
    ensures var n := AcceptedSequence(ReceiptsIn(StateAt(d.initial, c), x.context), x.member);
      NoneAt(d.minted, c, x, k) <==> !(1 <= k <= n)
  {
    var receipts := ReceiptsIn(StateAt(d.initial, c), x.context);
    var n, h := AcceptedSequence(receipts, x.member), AcceptedHash(receipts, x.member);
    ReceiptIsNewest(d, c, authority, x, x);
    if 1 <= k <= n {
      ChainHasNoGap(h, n, x.member, x.context, k);
      var z :| OnChain(h, z) && z.sequence == k;
      OnChainBelow(h, n, x.member, x.context, z);
      ReceiptChainApplied(d.initial, d.minted, d.publications, c, x.member, z);
      assert RecordedAt(d.minted, c, x, z, k);
    } else {
      forall y ensures !RecordedAt(d.minted, c, x, y, k) { ReceiptIsNewest(d, c, authority, x, y); }
    }
  }

  /** The frame continues its author's chain where the accepted chain records it to end. */
  ghost predicate NextInOrder(minted: Minted, c: Commitment, x: Content) {
    && x.sequence >= 1 && NoneAt(minted, c, x, x.sequence)
    && (x.sequence == 1 ==> x.parent == ZeroHash)
    && (x.sequence >= 2 ==> exists y :: RecordedAt(minted, c, x, y, x.sequence - 1) && x.parent == ContentDigest(y))
  }

  /** What the accepted chain records decides the admission made from the receipts. */
  lemma ChainDecidesAdmission(d: Device, c: Commitment, authority: AuthorityHead, x: Content)
    requires DeviceOk(d) && Known(d.minted, c) && AuthorityOk(authority, c) && x.context == authority.record.context
    ensures var st := StateAt(d.initial, c);
      && (OutOfOrder(d.minted, c, x) <==>
            AdmitContent(st, x) == Gap || AdmitContent(st, x) == ParentMismatch || (AdmitContent(st, x) == Replay && Equivocates(st, x)))
      && (NextInOrder(d.minted, c, x) <==> AdmitContent(st, x) == Apply)
  {
    ReceiptIsNewest(d, c, authority, x, x);
    RecordedUpTo(d, c, authority, x, x.sequence - 1);
    RecordedUpTo(d, c, authority, x, x.sequence);
    RecordedUpTo(d, c, authority, x, x.sequence + 1);
    RecordedUpTo(d, c, authority, x, 1);
    var receipts := ReceiptsIn(StateAt(d.initial, c), x.context);
    var n, h := AcceptedSequence(receipts, x.member), AcceptedHash(receipts, x.member);
    if n >= 1 {
      forall y | RecordedAt(d.minted, c, x, y, n) ensures y == h.content {
        ChainNeverEquivocates(d.initial, d.minted, d.publications, c, y, h.content);
      }
      assert x.sequence == n ==> RecordedAt(d.minted, c, x, h.content, x.sequence);
      assert x.sequence == n + 1 ==> RecordedAt(d.minted, c, x, h.content, x.sequence - 1);
    }
  }

  /** In every quiet state of every run, a frame out of order against the accepted chain is refused. */
  lemma OutOfOrderIsRefused(ws: seq<World>, steps: seq<Step>, i: nat, x: Content, draw: Draw)
    requires Run(ws, steps) && i < |ws| && Quiet(ws[i])
    requires OutOfOrder(ws[i].device.minted, AnchorCommitment(ws[i].anchor), x)
    ensures Do(ws[i], Receive(x, draw)) == None
  {
    SafeRun(ws, steps, i);
    if Authorized(ws[i].phase.live.authority, x) {
      ChainDecidesAdmission(ws[i].device, AnchorCommitment(ws[i].anchor), ws[i].phase.live.authority, x);
    }
  }

  /** Every frame is refused if it is not by a writer under the current head. Otherwise it is one of
      three things against the accepted chain: out of order, and then refused; the next of its chain, and
      then handed to the journal to be staged; or neither, and then ignored. */
  lemma EveryFrameIsClassified(ws: seq<World>, steps: seq<Step>, i: nat, x: Content, draw: Draw)
    requires Run(ws, steps) && i < |ws| && Quiet(ws[i])
    ensures var w, minted, c := ws[i], ws[i].device.minted, AnchorCommitment(ws[i].anchor);
      && !(OutOfOrder(minted, c, x) && NextInOrder(minted, c, x))
      && (!WriterUnder(w.phase.live.authority, x) || OutOfOrder(minted, c, x) ==> Do(w, Receive(x, draw)) == None)
      && (WriterUnder(w.phase.live.authority, x) && NextInOrder(minted, c, x) ==>
            Do(w, Receive(x, draw)) == StageFrame(w, w.phase.live, x, None, false, draw))
      && (Do(w, Receive(x, draw)) == Some(w) <==>
            WriterUnder(w.phase.live.authority, x) && !OutOfOrder(minted, c, x) && !NextInOrder(minted, c, x))
      && (Do(w, Receive(x, draw)).Some? && Do(w, Receive(x, draw)).value.phase.Staged? ==>
            WriterUnder(w.phase.live.authority, x) && NextInOrder(minted, c, x))
  {
    SafeRun(ws, steps, i);
    var authority := ws[i].phase.live.authority;
    AuthorizedIsWriter(authority, x);
    if x.context == authority.record.context {
      ChainDecidesAdmission(ws[i].device, AnchorCommitment(ws[i].anchor), authority, x);
    } else {
      NotBoth(ws[i].device, AnchorCommitment(ws[i].anchor), x);
    }
  }

  /** Out of order and next in order exclude each other whatever the current context is. */
  lemma NotBoth(d: Device, c: Commitment, x: Content)
    requires DeviceOk(d) && Known(d.minted, c)
    ensures !(OutOfOrder(d.minted, c, x) && NextInOrder(d.minted, c, x))
  {
    if x.sequence >= 2 && OutOfOrder(d.minted, c, x) && NextInOrder(d.minted, c, x) {
      var y :| RecordedAt(d.minted, c, x, y, x.sequence - 1) && x.parent == ContentDigest(y);
      var z :| RecordedAt(d.minted, c, x, z, x.sequence - 1) && x.parent != ContentDigest(z);
      ChainNeverEquivocates(d.initial, d.minted, d.publications, c, y, z);
      assert false;
    }
    forall y ensures !RecordedAt(d.minted, c, x, y, 0) {
      if RecordedAt(d.minted, c, x, y, 0) { RecordedIsChained(d.initial, d.minted, d.publications, c, y, y); }
    }
  }

  /** So a frame below its author's newest recorded one is ignored whatever it says: a contradiction of
      an older frame is neither applied nor noticed. */
  lemma OlderFrameIsIgnored(ws: seq<World>, steps: seq<Step>, i: nat, x: Content, y: Content, draw: Draw)
    requires Run(ws, steps) && i < |ws| && Quiet(ws[i]) && WriterUnder(ws[i].phase.live.authority, x)
    requires InChain(ws[i].device.minted, AnchorCommitment(ws[i].anchor), y)
    requires y.member == x.member && y.context == x.context && x.sequence < y.sequence
    ensures Do(ws[i], Receive(x, draw)) == Some(ws[i])
  {
    SafeRun(ws, steps, i);
    ReceiptIsNewest(ws[i].device, AnchorCommitment(ws[i].anchor), ws[i].phase.live.authority, x, y);
  }

  /** Receipts and document depend only on the last durable commit: what recovery rebuilds after any
      number of crashes is what was live when that commit finished. */
  lemma RecoveryRebuildsTheLiveDocument(ws: seq<World>, steps: seq<Step>, i: nat, j: nat)
    requires Run(ws, steps) && i <= j < |ws| && Quiet(ws[i]) && Quiet(ws[j])
    requires ws[i].anchor == ws[j].anchor
    ensures ws[i].phase.live.doc == ws[j].phase.live.doc
  {
    SafeRun(ws, steps, i);
    SafeRun(ws, steps, j);
    AcceptedHistoryIsAppendOnly(ws, steps, i, j);
  }
}
