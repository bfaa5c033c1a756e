/** The role history a document trusts: which records may follow which, and what the digest of the
    newest record says about everything before it. */
module AuthorityHistory {
  import opened Common
  import opened DocumentTypes

  const MAX_RECORDS: nat := 1024

  /** Between 1 and 256 members, roles 1 to 3, exactly one controller. */
  ghost predicate RosterValid(roster: Roster) {
    && 1 <= |roster| <= 256
    && (forall m :: m in roster ==> 1 <= roster[m] <= 3)
    && (exists m :: m in roster && roster[m] == 3)
    && (forall m, n :: m in roster && n in roster && roster[m] == 3 && roster[n] == 3 ==> m == n)
  }

  ghost function Controller(roster: Roster): (c: Member)
    requires RosterValid(roster)
    ensures c in roster && roster[c] == 3
  {
    var m :| m in roster && roster[m] == 3; m
  }

  predicate MayWrite(roster: Roster, m: Member) { m in roster && roster[m] >= 2 }

  /** A role transition needs a newer epoch of the same group and a new control head. */
  predicate CanAdvance(previous: Context, next: Context) {
    next.epoch > previous.epoch && next.group == previous.group && next.controlHead != previous.controlHead
  }

  /** The records behind a head, oldest first. */
  function Records(h: AuthorityHead): seq<AuthorityRecord> {
    match h
    case NoAuthority => []
    case AuthorityDigest(r) => Records(r.parent) + [r]
  }

  /** The digests of those records. */
  function Heads(h: AuthorityHead): set<AuthorityHead> {
    match h
    case NoAuthority => {}
    case AuthorityDigest(r) => Heads(r.parent) + {h}
  }

  /** Which controller each control head is bound to. */
  ghost function Controllers(h: AuthorityHead): map<nat, Member>
    requires ValidHistory(h)
    decreases h, 2
  {
    match h
    case NoAuthority => map[]
    case AuthorityDigest(r) => Controllers(r.parent)[r.context.controlHead := Controller(r.roster)]
  }

  /** The check made before a record is installed on top of `h`. */
  ghost predicate MayFollow(h: AuthorityHead, next: AuthorityRecord)
    requires h.AuthorityDigest? && ValidHistory(h)
    decreases h, 3
  {
    && |Records(h)| < MAX_RECORDS
    && next.documentId == h.record.documentId
    && next.sequence == h.record.sequence + 1
    && next.parent == h
    && CanAdvance(h.record.context, next.context)
    && |Controllers(h)| < MAX_RECORDS
    && next.context.controlHead !in Controllers(h)
  }

  ghost predicate ValidHistory(h: AuthorityHead)
    decreases h, 1
  {
    match h
    case NoAuthority => true
    case AuthorityDigest(r) =>
      && RosterValid(r.roster)
      && ValidHistory(r.parent)
      && (r.parent.NoAuthority? ==> r.sequence == 1)
      && (r.parent.AuthorityDigest? ==> MayFollow(r.parent, r))
  }

  predicate Extends(h: AuthorityHead, g: AuthorityHead) { g in Heads(h) }

  // ---------------------------------------------------------------- lemmas

  lemma {:induction false} ExtendsIsValid(h: AuthorityHead, g: AuthorityHead)
    requires ValidHistory(h) && Extends(h, g)
    ensures ValidHistory(g) && g.AuthorityDigest?
  {
    if g != h { ExtendsIsValid(h.record.parent, g); }
  }

  lemma {:induction false} ExtendsTransitive(h: AuthorityHead, g: AuthorityHead, f: AuthorityHead)
    requires Extends(h, g) && Extends(g, f)
    ensures Extends(h, f)
  {
    if g != h { ExtendsTransitive(h.record.parent, g, f); }
  }

  /** Epochs never repeat along a history. */
  lemma {:induction false} EpochsIncrease(h: AuthorityHead, g: AuthorityHead)
    requires ValidHistory(h) && Extends(h, g) && g != h
    ensures g.AuthorityDigest? && g.record.context.epoch < h.record.context.epoch
    ensures g.record.sequence < h.record.sequence
  {
    ExtendsIsValid(h, g);
    var p := h.record.parent;
    assert Extends(p, g);
    if g != p { EpochsIncrease(p, g); }
  }

  /** Two heads of one history with the same group context are the same head. */
  lemma ContextIdentifiesHead(h: AuthorityHead, g: AuthorityHead)
    requires ValidHistory(h) && Extends(h, g)
    requires h.record.context == (ExtendsIsValid(h, g); g.record.context)
    ensures g == h
  {
    if g != h { EpochsIncrease(h, g); }
  }

  lemma {:induction false} RecordsOfValid(h: AuthorityHead)
    requires ValidHistory(h)
    ensures h.AuthorityDigest? ==> |Records(h)| == h.record.sequence && |Controllers(h)| == |Records(h)|
    ensures |Records(h)| <= MAX_RECORDS
  {
    if h.AuthorityDigest? {
      RecordsOfValid(h.record.parent);
      if h.record.parent.AuthorityDigest? {
        assert MayFollow(h.record.parent, h.record);
      }
    }
  }

  lemma {:induction false} HeadsNewest(h: AuthorityHead, g: AuthorityHead)
    requires h.AuthorityDigest? && g in Heads(h)
    ensures g.AuthorityDigest? && g.record in Records(h)
  {
    var rs := Records(h);
    assert rs[|rs| - 1] == h.record;
    if g != h {
      HeadsNewest(h.record.parent, g);
      assert forall r :: r in Records(h.record.parent) ==> r in rs;
    }
  }

  /** A head is extended exactly when its record is one of the records. */
  lemma {:induction false} ExtendsIffRecord(h: AuthorityHead, r: AuthorityRecord)
    ensures Extends(h, AuthorityDigest(r)) <==> r in Records(h)
  {
    if h.AuthorityDigest? {
      var rs := Records(h);
      assert rs[|rs| - 1] == h.record;
      ExtendsIffRecord(h.record.parent, r);
    }
  }

  /** Extending another log's head means containing all of its records as a prefix, and conversely. */
  lemma {:induction false} ExtendsIffPrefix(h: AuthorityHead, g: AuthorityHead)
    requires g.AuthorityDigest?
    ensures Extends(h, g) <==> Records(g) <= Records(h)
  {
    if h.AuthorityDigest? {
      var p := h.record.parent;
      ExtendsIffPrefix(p, g);
      var rg, rh := Records(g), Records(h);
      assert rg[|rg| - 1] == g.record && rh[|rh| - 1] == h.record;
      if rg <= rh && |rg| == |rh| {
        assert g.record == h.record;
      } else if rg <= rh {
        assert rg <= Records(p);
      }
    }
  }

  /** A bound control head keeps its controller in every later history. */
  lemma {:induction false} ControllersPersist(h: AuthorityHead, g: AuthorityHead, control: nat)
    requires ValidHistory(h) && Extends(h, g)
    requires control in (ExtendsIsValid(h, g); Controllers(g))
    ensures control in Controllers(h) && Controllers(h)[control] == Controllers(g)[control]
  {
    if g != h {
      ControllersPersist(h.record.parent, g, control);
      assert MayFollow(h.record.parent, h.record);
    }
  }

  /** Each record binds its own control head to its own controller. */
  lemma {:induction false} ControllerOfRecord(h: AuthorityHead, g: AuthorityHead)
    requires ValidHistory(h) && Extends(h, g)
    ensures (ExtendsIsValid(h, g); g.record.context.controlHead in Controllers(h))
    ensures RosterValid(g.record.roster)
    ensures Controllers(h)[g.record.context.controlHead] == Controller(g.record.roster)
  {
    ExtendsIsValid(h, g);
    ControllersPersist(h, g, g.record.context.controlHead);
  }

  /** The controllers a history answers with are those of its records. */
  lemma {:induction false} ControllerIsOfRecord(h: AuthorityHead, control: nat)
    requires ValidHistory(h) && control in Controllers(h)
    ensures exists r :: r in Records(h) && r.context.controlHead == control && RosterValid(r.roster)
                        && Controllers(h)[control] == Controller(r.roster)
  {
    var r, rs := h.record, Records(h);
    if r.context.controlHead == control {
      assert rs[|rs| - 1] == r;
    } else {
      ControllerIsOfRecord(r.parent, control);
      assert forall q :: q in Records(r.parent) ==> q in rs;
    }
  }

  // ---------------------------------------------------------------- which record may follow, spelled out

  /** Between 1 and 256 members with roles 1 to 3, and this one alone has role 3. */
  predicate ControlledBy(roster: Roster, controller: Option<Member>) {
    && 1 <= |roster| <= 256 && (forall m :: m in roster ==> 1 <= roster[m] <= 3)
    && controller.Some? && controller.value in roster && roster[controller.value] == 3
    && forall m :: m in roster && roster[m] == 3 ==> m == controller.value
  }

  ghost predicate HasController(roster: Roster) { exists c :: ControlledBy(roster, Some(c)) }

  lemma ControlledIff(roster: Roster, c: Option<Member>)
    ensures RosterValid(roster) <==> HasController(roster)
    ensures ControlledBy(roster, c) <==> RosterValid(roster) && c == Some(Controller(roster))
  {
    if RosterValid(roster) { assert ControlledBy(roster, Some(Controller(roster))); }
  }

  /** A control head is bound exactly if some record of the history names it. */
  lemma BoundIffNamed(h: AuthorityHead, control: nat)
    requires ValidHistory(h)
    ensures control in Controllers(h) <==> exists r :: r in Records(h) && r.context.controlHead == control
  {
    if control in Controllers(h) { ControllerIsOfRecord(h, control); }
    if r :| r in Records(h) && r.context.controlHead == control {
      ExtendsIffRecord(h, r);
      ControllerOfRecord(h, AuthorityDigest(r));
    }
  }

  /** A record may follow a history exactly if it is the next in number on the newest record, of the same
      document and group, of a newer epoch, under a control head no record of the history named. */
  lemma MayFollowIff(h: AuthorityHead, next: AuthorityRecord)
    requires h.AuthorityDigest? && ValidHistory(h)
    ensures MayFollow(h, next) <==>
              && |Records(h)| < 1024 && next.sequence == |Records(h)| + 1 && next.parent == h
              && next.documentId == h.record.documentId
              && next.context.group == h.record.context.group && next.context.epoch > h.record.context.epoch
              && forall r :: r in Records(h) ==> r.context.controlHead != next.context.controlHead
  {
    RecordsOfValid(h);
    BoundIffNamed(h, next.context.controlHead);
    var rs := Records(h);
    assert rs[|rs| - 1] == h.record;
  }
}
