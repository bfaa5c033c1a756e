/** What holds of every entry the device ever sealed, and of the chain behind any of them. */
module AcceptedChain {
  import opened Common
  import opened DocumentTypes
  import opened AuthorityHistory
  import opened ReplayJournal
  import opened DocumentState

  type Minted = map<Entry, Option<Content>>
  type Sealed = map<Token, Publication>

  predicate Known(minted: Minted, c: Commitment) { c.Zero? || c.entry in minted }

  /** The frame recorded at a revision of the chain behind `c`. */
  function ContentAt(minted: Minted, c: Commitment, revision: nat): Option<Content> {
    if c.Digest? && c.entry.Entry? then
      if c.entry.payload.revision == revision then (if c.entry in minted then minted[c.entry] else None)
      else ContentAt(minted, c.entry.payload.parent, revision)
    else None
  }

  /** The frame is recorded somewhere on the chain behind `c`. */
  predicate InChain(minted: Minted, c: Commitment, x: Content) {
    && c.Digest? && c.entry.Entry?
    && ((c.entry in minted && minted[c.entry] == Some(x)) || InChain(minted, c.entry.payload.parent, x))
  }

  /** The token belongs to an outbox record for the frame accepted at that revision. */
  predicate TokenOk(minted: Minted, publications: Sealed, c: Commitment, t: Token, revision: nat) {
    && t in publications
    && publications[t].revision == revision
    && PublicationOpens(publications[t])
    && 1 <= revision <= RevisionAt(c)
    && ContentAt(minted, c, revision) == Some(publications[t].id.content)
  }

  predicate LedgerOk(minted: Minted, publications: Sealed, c: Commitment, ledger: Ledger) {
    forall t :: t in ledger ==> TokenOk(minted, publications, c, t, ledger[t])
  }

  /** One accepted entry on top of the state its parent stands for. */
  ghost predicate Transition(initial: set<Change>, parent: Commitment, checkpoint: bool, item: Item, content: Option<Content>) {
    var st := StateAt(initial, parent);
    && item.authorityHead.AuthorityDigest?
    && ValidHistory(item.authorityHead)
    && (parent.Digest? ==> Extends(item.authorityHead, AuthorityAt(parent)))
    && item.context == item.authorityHead.record.context
    && match content
       case None =>
         checkpoint && st.context != Some(item.context)
         && item == RoleItem(st, item.authorityHead, item.context, item.bindings)
       case Some(x) =>
         && FrameFollows(st, x)
         && x.context == item.context && x.authorityHead == item.authorityHead
         && MayWrite(item.authorityHead.record.roster, x.member)
         && item == FrameItem(st, x, checkpoint, item.bindings)
  }

  ghost predicate EntryOk(initial: set<Change>, minted: Minted, publications: Sealed, e: Entry)
    requires e in minted
  {
    && MarkerVerifies(e)
    && Decrypts(e.payload)
    && e.payload.marker <= 1
    && e.payload.revision == RevisionAt(e.payload.parent) + 1
    && Known(minted, e.payload.parent)
    && Transition(initial, e.payload.parent, e.payload.body.checkpoint, ItemOf(e), minted[e])
    && forall b :: b in ItemOf(e).bindings ==> TokenOk(minted, publications, Digest(e), b.token, b.revision)
  }

  ghost predicate MintedOk(initial: set<Change>, minted: Minted, publications: Sealed) {
    forall e {:trigger EntryOk(initial, minted, publications, e)} :: e in minted ==> EntryOk(initial, minted, publications, e)
  }

  // ---------------------------------------------------------------- growth

  predicate Grows(minted: Minted, publications: Sealed, minted': Minted, publications': Sealed) {
    && (forall e :: e in minted ==> e in minted' && minted'[e] == minted[e])
    && (forall t :: t in publications ==> t in publications' && publications'[t] == publications[t])
  }

  lemma {:induction false} ContentAtGrows(initial: set<Change>, minted: Minted, publications: Sealed,
                                          minted': Minted, publications': Sealed, c: Commitment, r: nat)
    requires MintedOk(initial, minted, publications) && Known(minted, c)
    requires Grows(minted, publications, minted', publications')
    ensures ContentAt(minted', c, r) == ContentAt(minted, c, r)
    decreases c
  {
    if c.Digest? && c.entry.Entry? && c.entry.payload.revision != r {
      assert EntryOk(initial, minted, publications, c.entry);
      ContentAtGrows(initial, minted, publications, minted', publications', c.entry.payload.parent, r);
    }
  }

  lemma {:induction false} InChainGrows(initial: set<Change>, minted: Minted, publications: Sealed,
                                        minted': Minted, publications': Sealed, c: Commitment, x: Content)
    requires MintedOk(initial, minted, publications) && Known(minted, c)
    requires Grows(minted, publications, minted', publications')
    ensures InChain(minted', c, x) == InChain(minted, c, x)
    decreases c
  {
    if c.Digest? && c.entry.Entry? {
      assert EntryOk(initial, minted, publications, c.entry);
      InChainGrows(initial, minted, publications, minted', publications', c.entry.payload.parent, x);
    }
  }

  lemma TokenGrows(initial: set<Change>, minted: Minted, publications: Sealed,
                   minted': Minted, publications': Sealed, c: Commitment, t: Token, r: nat)
    requires MintedOk(initial, minted, publications) && Known(minted, c)
    requires Grows(minted, publications, minted', publications')
    requires TokenOk(minted, publications, c, t, r)
    ensures TokenOk(minted', publications', c, t, r)
  {
    ContentAtGrows(initial, minted, publications, minted', publications', c, r);
  }

  lemma EntryGrows(initial: set<Change>, minted: Minted, publications: Sealed,
                   minted': Minted, publications': Sealed, e: Entry)
    requires MintedOk(initial, minted, publications) && e in minted
    requires Grows(minted, publications, minted', publications')
    ensures EntryOk(initial, minted', publications', e)
  {
    assert EntryOk(initial, minted, publications, e);
    forall b | b in ItemOf(e).bindings ensures TokenOk(minted', publications', Digest(e), b.token, b.revision) {
      TokenGrows(initial, minted, publications, minted', publications', Digest(e), b.token, b.revision);
    }
  }

  lemma LedgerGrows(initial: set<Change>, minted: Minted, publications: Sealed,
                    minted': Minted, publications': Sealed, c: Commitment, ledger: Ledger)
    requires MintedOk(initial, minted, publications) && Known(minted, c)
    requires Grows(minted, publications, minted', publications')
    requires LedgerOk(minted, publications, c, ledger)
    ensures LedgerOk(minted', publications', c, ledger)
  {
    forall t | t in ledger ensures TokenOk(minted', publications', c, t, ledger[t]) {
      TokenGrows(initial, minted, publications, minted', publications', c, t, ledger[t]);
    }
  }

  /** A token bound below an entry is still bound at that entry. */
  lemma TokenRises(minted: Minted, publications: Sealed, e: Entry, t: Token, r: nat)
    requires e.Entry? && e.payload.revision == RevisionAt(e.payload.parent) + 1
    requires TokenOk(minted, publications, e.payload.parent, t, r)
    ensures TokenOk(minted, publications, Digest(e), t, r)
  {}

  lemma {:induction false} ContentAtInChain(minted: Minted, c: Commitment, r: nat, x: Content)
    requires ContentAt(minted, c, r) == Some(x)
    ensures InChain(minted, c, x)
    decreases c
  {
    if c.entry.payload.revision != r { ContentAtInChain(minted, c.entry.payload.parent, r, x); }
  }

  // ---------------------------------------------------------------- the state behind a commitment

  /** Facts about the state a known commitment stands for. */
  ghost predicate StateOk(initial: set<Change>, c: Commitment) {
    var st := StateAt(initial, c);
    && initial <= st.document
    && ReceiptsChained(st)
    && (c.Zero? ==> st == DocState(None, map[], initial))
    && (c.Digest? ==>
          && AuthorityAt(c).AuthorityDigest?
          && ValidHistory(AuthorityAt(c))
          && st.context == Some(AuthorityAt(c).record.context)
          && st.receipts.Keys <= AuthorityAt(c).record.roster.Keys)
  }

  /** Same context as the parent's state means same authority record. */
  lemma SameContextSameAuthority(initial: set<Change>, parent: Commitment, item: Item)
    requires StateOk(initial, parent)
    requires item.authorityHead.AuthorityDigest? && ValidHistory(item.authorityHead)
    requires parent.Digest? ==> Extends(item.authorityHead, AuthorityAt(parent))
    requires item.context == item.authorityHead.record.context
    requires StateAt(initial, parent).context == Some(item.context)
    ensures parent.Digest? && AuthorityAt(parent) == item.authorityHead
  {
    ContextIdentifiesHead(item.authorityHead, AuthorityAt(parent));
  }

  lemma TransitionState(initial: set<Change>, parent: Commitment, checkpoint: bool, item: Item, content: Option<Content>)
    requires StateOk(initial, parent) && Transition(initial, parent, checkpoint, item, content)
    ensures var st, after := StateAt(initial, parent), ApplyItem(StateAt(initial, parent), checkpoint, item);
      && after == (if content.Some? then AfterFrame(st, content.value) else AfterRole(st, item.context))
      && ReceiptsChained(after)
      && after.receipts.Keys <= item.authorityHead.record.roster.Keys
  {
    var st := StateAt(initial, parent);
    if content.Some? {
      FrameItemReplays(st, content.value, checkpoint, item.bindings);
      FrameExtendsChain(st, content.value);
      if st.context == Some(item.context) { SameContextSameAuthority(initial, parent, item); }
    } else {
      RoleItemReplays(st, item.authorityHead, item.context, item.bindings);
    }
  }

  lemma {:induction false} KnownState(initial: set<Change>, minted: Minted, publications: Sealed, c: Commitment)
    requires MintedOk(initial, minted, publications) && Known(minted, c)
    ensures StateOk(initial, c)
    decreases c
  {
    if c.Digest? {
      var e := c.entry;
      assert EntryOk(initial, minted, publications, e);
      KnownState(initial, minted, publications, e.payload.parent);
      TransitionState(initial, e.payload.parent, e.payload.body.checkpoint, ItemOf(e), minted[e]);
    }
  }

  // ---------------------------------------------------------------- no equivocation on a chain

  /** A frame on the chain was accepted under an authority head the newest one extends, and if its
      context is still the current one it lies on its author's receipt chain. */
  lemma {:induction false} FrameIsCovered(initial: set<Change>, minted: Minted, publications: Sealed, c: Commitment, x: Content)
    requires MintedOk(initial, minted, publications) && Known(minted, c) && InChain(minted, c, x)
    ensures x.authorityHead.AuthorityDigest? && x.context == x.authorityHead.record.context
    ensures Extends(AuthorityAt(c), x.authorityHead)
    ensures var st := StateAt(initial, c);
      st.context == Some(x.context) ==>
        x.member in st.receipts && OnChain(st.receipts[x.member].hash, x)
    decreases c
  {
    var e := c.entry;
    assert EntryOk(initial, minted, publications, e);
    var parent, item := e.payload.parent, ItemOf(e);
    KnownState(initial, minted, publications, parent);
    TransitionState(initial, parent, e.payload.body.checkpoint, item, minted[e]);
    if minted[e] != Some(x) {
      FrameIsCovered(initial, minted, publications, parent, x);
      ExtendsTransitive(item.authorityHead, AuthorityAt(parent), x.authorityHead);
      if item.context == x.context {
        // the old head and the new one share a context, so nothing moved in between
        ContextIdentifiesHead(item.authorityHead, x.authorityHead);
        HeadBetween(item.authorityHead, AuthorityAt(parent), x.authorityHead);
        CoverageRises(StateAt(initial, parent), StateAt(initial, c), minted[e], x);
      }
    }
  }

  /** Within one context, accepting another frame keeps every earlier frame on its chain. */
  lemma CoverageRises(st: DocState, after: DocState, content: Option<Content>, x: Content)
    requires st.context == Some(x.context) && x.member in st.receipts && OnChain(st.receipts[x.member].hash, x)
    requires content.Some? && content.value.context == x.context && FrameFollows(st, content.value)
    requires after == AfterFrame(st, content.value)
    ensures x.member in after.receipts && OnChain(after.receipts[x.member].hash, x)
  {}

  lemma HeadBetween(h: AuthorityHead, g: AuthorityHead, f: AuthorityHead)
    requires ValidHistory(h) && Extends(h, g) && Extends(g, f) && f == h
    ensures g == h
  {
    if g != h {
      EpochsIncrease(h, g);
      ExtendsIsValid(h, g);
      EpochsIncrease(g, f);
      assert false;
    }
  }

  /** One chain never holds two different frames of one author with one context and sequence. */
  lemma {:induction false} ChainNeverEquivocates(initial: set<Change>, minted: Minted, publications: Sealed,
                                                 c: Commitment, x: Content, y: Content)
    requires MintedOk(initial, minted, publications) && Known(minted, c)
    requires InChain(minted, c, x) && InChain(minted, c, y)
    requires x.context == y.context && x.member == y.member && x.sequence == y.sequence
    ensures x == y
    decreases c
  {
    var e := c.entry;
    assert EntryOk(initial, minted, publications, e);
    if minted[e] == Some(x) && x != y {
      NewFrameIsNewer(initial, minted, publications, e, x, y);
    } else if minted[e] == Some(y) && x != y {
      NewFrameIsNewer(initial, minted, publications, e, y, x);
    } else if x != y {
      ChainNeverEquivocates(initial, minted, publications, e.payload.parent, x, y);
    }
  }

  /** The frame an entry records has a later sequence than any frame of that author and context below. */
  lemma NewFrameIsNewer(initial: set<Change>, minted: Minted, publications: Sealed, e: Entry, x: Content, y: Content)
    requires MintedOk(initial, minted, publications) && e in minted && minted[e] == Some(x)
    requires (assert EntryOk(initial, minted, publications, e); InChain(minted, e.payload.parent, y))
    requires x.context == y.context && x.member == y.member
    ensures y.sequence < x.sequence
  {
    var parent, item := e.payload.parent, ItemOf(e);
    assert EntryOk(initial, minted, publications, e);
    KnownState(initial, minted, publications, parent);
    FrameIsCovered(initial, minted, publications, parent, y);
    ExtendsTransitive(item.authorityHead, AuthorityAt(parent), y.authorityHead);
    ContextIdentifiesHead(item.authorityHead, y.authorityHead);
    HeadBetween(item.authorityHead, AuthorityAt(parent), y.authorityHead);
    var st := StateAt(initial, parent);
    FrameExtendsChain(st, x);
    OnChainBelow(st.receipts[y.member].hash, st.receipts[y.member].sequence, y.member, y.context, y);
  }

  // ---------------------------------------------------------------- commitments above one another

  /** `c` is `d` or one of its ancestors. */
  predicate Reaches(d: Commitment, c: Commitment) {
    c == d || (d.Digest? && d.entry.Entry? && Reaches(d.entry.payload.parent, c))
  }

  lemma {:induction false} ReachesTransitive(d: Commitment, c: Commitment, b: Commitment)
    requires Reaches(d, c) && Reaches(c, b)
    ensures Reaches(d, b)
  {
    if c != d { ReachesTransitive(d.entry.payload.parent, c, b); }
  }

  /** A frame recorded below is recorded above. */
  lemma {:induction false} InChainRises(minted: Minted, d: Commitment, c: Commitment, x: Content)
    requires Reaches(d, c) && InChain(minted, c, x)
    ensures InChain(minted, d, x)
  {
    if c != d { InChainRises(minted, d.entry.payload.parent, c, x); }
  }
}
