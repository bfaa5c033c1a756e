/** Any number of instances of one member over one store and one anchor, such as several browser tabs:
    their steps interleave, each may crash on its own, and the store is in anybody's hands. Reading or
    writing the store at another moment than the anchor is covered, because the store may be replaced
    between any two steps. */
module DocumentGroup {
  import opened Common
  import opened DocumentTypes
  import opened AuthorityHistory
  import opened ReplayJournal
  import opened JournalStoreSpec
  import opened DocumentState
  import opened AcceptedChain
  import opened DocumentRun
  import opened DocumentSafety
  import opened DocumentTheorems

  datatype Group = Group(
    device: Device, store: Snapshot, anchor: Option<Anchor>, instances: seq<Phase>,
    released: set<Frame>, sent: set<Frame>)

  /** What one instance sees. */
  function Focus(g: Group, i: nat): World
    requires i < |g.instances|
  {
    World(g.device, g.store, g.anchor, g.instances[i], g.released, g.sent)
  }

  function Unfocus(g: Group, i: nat, w: World): Group
    requires i < |g.instances|
  {
    Group(w.device, w.store, w.anchor, g.instances[i := w.phase], w.released, w.sent)
  }

  datatype Act = Act(instance: nat, step: Step)

  ghost function GroupDo(g: Group, a: Act): Option<Group> {
    if a.instance >= |g.instances| then None
    else
      var w := Do(Focus(g, a.instance), a.step);
      if w.None? then None else Some(Unfocus(g, a.instance, w.value))
  }

  predicate GroupInitial(g: Group) {
    && g.store == EmptySnapshot && g.anchor == None
    && (forall i :: 0 <= i < |g.instances| ==> g.instances[i] == Down)
    && g.device.minted == map[] && g.device.publications == map[] && g.device.tokens == {}
    && g.released == {} && g.sent == {}
  }

  ghost predicate GroupRun(gs: seq<Group>, acts: seq<Act>) {
    && |gs| == |acts| + 1
    && GroupInitial(gs[0])
    && forall i {:trigger acts[i]} :: 0 <= i < |acts| ==> GroupDo(gs[i], acts[i]) == Some(gs[i + 1])
  }

  // ---------------------------------------------------------------- invariant

  /** The publication token an operation in flight has drawn. */
  function OpTokens(p: Phase): set<Token> {
    if (p.Staged? || p.Applied? || p.Sealing? || p.Anchored?) && p.op.binding.Some? then {p.op.binding.value.token} else {}
  }

  ghost predicate GroupInv(g: Group) {
    && DeviceOk(g.device)
    && AnchorOk(g.device.minted, g.anchor)
    && Unforged(g.device, g.store)
    && ReleasedOk(g.device, AnchorCommitment(g.anchor), g.released)
    && (forall i :: 0 <= i < |g.instances| ==> PhaseOk(g.device, g.anchor, g.instances[i]))
    && (forall i, j :: 0 <= i < j < |g.instances| ==> OpTokens(g.instances[i]) !! OpTokens(g.instances[j]))
  }

  lemma FocusShared(g: Group, i: nat)
    requires GroupInv(g) && i < |g.instances|
    ensures Shared(Focus(g, i))
  {}

  // ---------------------------------------------------------------- what a step does to the others

  /** The device only gains, and the only publication it can gain is that of the acting operation. */
  predicate DeviceGrows(d: Device, d': Device, acting: set<Token>) {
    && d'.initial == d.initial && d'.local == d.local && d.tokens <= d'.tokens
    && Grows(d.minted, d.publications, d'.minted, d'.publications)
    && forall t :: t in d'.publications && t !in d.publications ==> t in acting
  }

  lemma StageGrows(w: World, live: Live, checkpoint: bool, item: Item, binding: Option<Binding>,
                   content: Option<Content>, result: Option<Frame>, after: DocState, draw: Draw, w': World)
    requires StageEntry(w, live, checkpoint, item, binding, content, result, after, draw) == Some(w')
    requires binding.Some? ==> binding.value.token == draw.bindingToken
    ensures DeviceGrows(w.device, w'.device, {})
    ensures OpTokens(w'.phase) !! w.device.tokens
  {
    StagedShape(w, live, checkpoint, item, binding, content, result, after, draw, w');
  }

  lemma PrepareGrows(w: World, s: Step, w': World)
    requires Do(w, s) == Some(w') && (s.Change? || s.Receive? || s.RoleTransition?)
    ensures DeviceGrows(w.device, w'.device, {})
    ensures OpTokens(w'.phase) !! w.device.tokens || w' == w
  {
    match s
    case Change(changes, persist, nonce, length, draw) =>
      var live, x := w.phase.live, NextContent(w.device.local, w.phase.live, changes);
      FrameGrows(w, x, Some(Frame(x, nonce, length)), persist, draw, w');
    case Receive(x, draw) =>
      if AdmitContent(w.phase.live.doc, x) == Apply { FrameGrows(w, x, None, false, draw, w'); }
    case RoleTransition(record, draw) =>
      var live := w.phase.live.(authority := AuthorityDigest(record));
      var item := RoleItem(live.doc, live.authority, record.context, BindingList(live.journal, true, None, draw));
      StageGrows(w, live, true, item, None, None, None, AfterRole(live.doc, record.context), draw, w');
  }

  lemma FrameGrows(w: World, x: Content, result: Option<Frame>, persist: bool, draw: Draw, w': World)
    requires w.phase.Idle? && StageFrame(w, w.phase.live, x, result, persist, draw) == Some(w')
    ensures DeviceGrows(w.device, w'.device, {})
    ensures OpTokens(w'.phase) !! w.device.tokens
  {
    var live := w.phase.live;
    var j := live.journal;
    var checkpoint, binding := NeedsCheckpoint(j), NewBinding(j, persist, draw);
    var item := FrameItem(live.doc, x, checkpoint, BindingList(j, checkpoint, binding, draw));
    StageGrows(w, live, checkpoint, item, binding, Some(x), result, AfterFrame(live.doc, x), draw, w');
  }

  lemma SealGrows(w: World, nonce: nat, w': World)
    requires Shared(w) && DoSeal(w, nonce) == Some(w')
    ensures DeviceGrows(w.device, w'.device, OpTokens(w.phase)) && OpTokens(w'.phase) == OpTokens(w.phase)
  {
    SealStep(w, nonce, w');
    SealsGrows(w.device, w.phase.op, AcceptedEntry(w.phase.op, nonce), w'.device);
  }

  lemma OtherGrows(w: World, s: Step, w': World)
    requires Do(w, s) == Some(w') && !s.Change? && !s.Receive? && !s.RoleTransition? && !s.Seal?
    ensures w'.device == w.device && OpTokens(w'.phase) <= OpTokens(w.phase)
  {}

  lemma StepGrows(w: World, s: Step, w': World)
    requires Shared(w) && Do(w, s) == Some(w')
    ensures DeviceGrows(w.device, w'.device, OpTokens(w.phase))
    ensures OpTokens(w'.phase) <= OpTokens(w.phase) || OpTokens(w'.phase) !! w.device.tokens
  {
    if s.Change? || s.Receive? || s.RoleTransition? {
      PrepareGrows(w, s, w');
    } else if s.Seal? {
      SealGrows(w, s.nonce, w');
    } else {
      OtherGrows(w, s, w');
    }
  }

  // ---------------------------------------------------------------- what the others keep

  lemma RestoringKept(d: Device, expected: Option<Anchor>, r: Restored, d': Device)
    requires DeviceOk(d) && RestoringOk(d, expected, r) && d'.initial == d.initial
    requires Grows(d.minted, d.publications, d'.minted, d'.publications)
    ensures RestoringOk(d', expected, r)
  {
    LedgerGrows(d.initial, d.minted, d.publications, d'.minted, d'.publications, AnchorCommitment(r.stored), r.ledger);
  }

  lemma OpKept(d: Device, live: Live, op: Op, d': Device)
    requires OpOk(d, live, op) && d'.initial == d.initial && d'.local == d.local && d.tokens <= d'.tokens
    ensures OpOk(d', live, op)
  {}

  lemma SealedKept(d: Device, op: Op, e: Entry, d': Device)
    requires SealedFor(d, op, e) && Grows(d.minted, d.publications, d'.minted, d'.publications)
    ensures SealedFor(d', op, e)
  {}

  /** An instance that does not act stays as it should be, wherever the others take device and anchor. */
  lemma PhaseKept(d: Device, anchor: Option<Anchor>, p: Phase, d': Device, anchor': Option<Anchor>, acting: set<Token>)
    requires DeviceOk(d) && PhaseOk(d, anchor, p) && DeviceGrows(d, d', acting) && OpTokens(p) !! acting
    requires Reaches(AnchorCommitment(anchor'), AnchorCommitment(anchor))
    ensures PhaseOk(d', anchor', p)
  {
    if p.Restoring? {
      RestoringKept(d, p.expected, p.restored, d');
    } else if HasLive(p) {
      SealedLive(d, p.live, d');
      if !p.Idle? && !p.Sending? { OperationKept(d, anchor, p, d', anchor', acting); }
    }
  }

  lemma OperationKept(d: Device, anchor: Option<Anchor>, p: Phase, d': Device, anchor': Option<Anchor>, acting: set<Token>)
    requires PhaseOk(d, anchor, p) && DeviceGrows(d, d', acting) && OpTokens(p) !! acting
    requires p.Staged? || p.Applied? || p.Sealing? || p.Anchored?
    requires Reaches(AnchorCommitment(anchor'), AnchorCommitment(anchor))
    ensures OpOk(d', p.live, p.op)
    ensures p.Staged? || p.Applied? ==> Unsealed(d', p.op)
    ensures p.Sealing? || p.Anchored? ==> SealedFor(d', p.op, p.entry)
    ensures p.Anchored? ==> Reaches(AnchorCommitment(anchor'), Digest(p.entry))
  {
    OpKept(d, p.live, p.op, d');
    if p.Sealing? || p.Anchored? { SealedKept(d, p.op, p.entry, d'); }
    if p.Anchored? { ReachesTransitive(AnchorCommitment(anchor'), AnchorCommitment(anchor), Digest(p.entry)); }
  }

  /** Tokens in flight were drawn before. */
  lemma TokensDrawn(d: Device, anchor: Option<Anchor>, p: Phase)
    requires PhaseOk(d, anchor, p)
    ensures OpTokens(p) <= d.tokens
  {}

  lemma ClimbReaches(w: World, s: Step, w': World)
    requires Shared(w) && Do(w, s) == Some(w')
    ensures Reaches(AnchorCommitment(w'.anchor), AnchorCommitment(w.anchor)) && w.released <= w'.released
  {
    AnchorStep(w, s, w');
    StepKeeps(w, s, w');
    var a, b := AnchorCommitment(w.anchor), AnchorCommitment(w'.anchor);
    assert Reaches(a, a);
  }

  lemma GroupStep(g: Group, a: Act, g': Group)
    requires GroupInv(g) && GroupDo(g, a) == Some(g')
    ensures GroupInv(g')
    ensures Reaches(AnchorCommitment(g'.anchor), AnchorCommitment(g.anchor)) && g.released <= g'.released
  {
    var i, w := a.instance, Focus(g, a.instance);
    var w' := Do(w, a.step).value;
    FocusShared(g, i);
    SharedStep(w, a.step, w');
    StepGrows(w, a.step, w');
    ClimbReaches(w, a.step, w');
    OthersKept(g, i, w');
  }

  lemma OthersKept(g: Group, i: nat, w': World)
    requires GroupInv(g) && i < |g.instances| && Shared(w')
    requires DeviceGrows(g.device, w'.device, OpTokens(g.instances[i]))
    requires OpTokens(w'.phase) <= OpTokens(g.instances[i]) || OpTokens(w'.phase) !! g.device.tokens
    requires Reaches(AnchorCommitment(w'.anchor), AnchorCommitment(g.anchor))
    ensures GroupInv(Unfocus(g, i, w'))
  {
    var after := g.instances[i := w'.phase];
    forall j | 0 <= j < |after| ensures PhaseOk(w'.device, w'.anchor, after[j]) {
      if j != i { PhaseKept(g.device, g.anchor, g.instances[j], w'.device, w'.anchor, OpTokens(g.instances[i])); }
    }
    forall j, k | 0 <= j < k < |after| ensures OpTokens(after[j]) !! OpTokens(after[k]) {
      TokensDrawn(g.device, g.anchor, g.instances[j]);
      TokensDrawn(g.device, g.anchor, g.instances[k]);
    }
  }

  lemma GroupStart(g: Group)
    requires GroupInitial(g)
    ensures GroupInv(g)
  {}

  lemma {:induction false} GroupRunKeeps(gs: seq<Group>, acts: seq<Act>, i: nat)
    requires GroupRun(gs, acts) && i < |gs|
    ensures GroupInv(gs[i])
    decreases i
  {
    if i == 0 {
      GroupStart(gs[0]);
    } else {
      GroupRunKeeps(gs, acts, i - 1);
      GroupStep(gs[i - 1], acts[i - 1], gs[i]);
    }
  }

  // ---------------------------------------------------------------- theorems

  /** However the instances interleave, the history behind the shared anchor only grows and no release
      is taken back. */
  lemma {:induction false} GroupHistoryIsAppendOnly(gs: seq<Group>, acts: seq<Act>, i: nat, j: nat)
    requires GroupRun(gs, acts) && i <= j < |gs|
    ensures Reaches(AnchorCommitment(gs[j].anchor), AnchorCommitment(gs[i].anchor))
    ensures Ancestry(AnchorCommitment(gs[i].anchor)) <= Ancestry(AnchorCommitment(gs[j].anchor))
    ensures gs[i].released <= gs[j].released
    decreases j - i
  {
    if i < j {
      GroupHistoryIsAppendOnly(gs, acts, i, j - 1);
      GroupRunKeeps(gs, acts, j - 1);
      GroupStep(gs[j - 1], acts[j - 1], gs[j]);
      ReachesTransitive(AnchorCommitment(gs[j].anchor), AnchorCommitment(gs[j - 1].anchor), AnchorCommitment(gs[i].anchor));
    }
    ReachesKeepsHistory(AnchorCommitment(gs[j].anchor), AnchorCommitment(gs[i].anchor));
  }

  /** No two frames released by any of a member's interleaved instances share context and sequence
      without sharing their content, and every one of them is recorded behind the shared anchor. */
  lemma GroupNeverEquivocates(gs: seq<Group>, acts: seq<Act>, i: nat, j: nat, f: Frame, h: Frame)
    requires GroupRun(gs, acts) && i <= j < |gs|
    requires f in gs[i].released && h in gs[j].released
    ensures InChain(gs[j].device.minted, AnchorCommitment(gs[j].anchor), f.content)
    ensures InChain(gs[j].device.minted, AnchorCommitment(gs[j].anchor), h.content)
    ensures f.content.context == h.content.context && f.content.sequence == h.content.sequence ==>
              ContentDigest(f.content) == ContentDigest(h.content)
  {
    GroupHistoryIsAppendOnly(gs, acts, i, j);
    GroupRunKeeps(gs, acts, j);
    var d, c := gs[j].device, AnchorCommitment(gs[j].anchor);
    if f.content.context == h.content.context && f.content.sequence == h.content.sequence {
      ChainNeverEquivocates(d.initial, d.minted, d.publications, c, f.content, h.content);
    }
  }
}
