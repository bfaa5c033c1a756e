/** The admission gate: operations of several gates charged against local and shared budgets, with
    cancellation, timeouts and late settlement in any interleaving. */
module OperationGate {
  import opened Common

  datatype Phase = Preparing | Prepared | Committed | Cancelled
  datatype PhaseEvent = PrepareEvent | CommitEvent | CancelEvent

  function AdvancePhase(phase: Phase, event: PhaseEvent, contextMatches: bool, authorized: bool): Phase {
    if phase == Committed || phase == Cancelled then phase
    else if event == CancelEvent then Cancelled
    else if event == PrepareEvent && phase == Preparing then Prepared
    else if event == CommitEvent && phase == Prepared then (if contextMatches && authorized then Committed else phase)
    else phase
  }

  // ---------------------------------------------------------------- budgets

  datatype Usage = Usage(count: nat, bytes: nat)
  datatype Limits = Limits(maxOperations: nat, maxBytes: nat)

  predicate CanReserve(u: Usage, bytes: nat, limits: Limits) {
    u.count < limits.maxOperations && u.bytes + bytes <= limits.maxBytes
  }

  predicate Within(u: Usage, limits: Limits) { u.count <= limits.maxOperations && u.bytes <= limits.maxBytes }

  function Plus(u: Usage, v: Usage): Usage { Usage(u.count + v.count, u.bytes + v.bytes) }

  function Minus(u: Usage, v: Usage): Usage
    requires v.count <= u.count && v.bytes <= u.bytes
  {
    Usage(u.count - v.count, u.bytes - v.bytes)
  }

  function Total(s: seq<Usage>): Usage {
    if s == [] then Usage(0, 0) else Plus(Total(s[..|s| - 1]), s[|s| - 1])
  }

  lemma {:induction false} TotalUpdate(s: seq<Usage>, i: nat, v: Usage)
    requires i < |s|
    ensures Plus(Total(s[i := v]), s[i]) == Plus(Total(s), v)
  {
    var front := s[..|s| - 1];
    if i == |s| - 1 {
      assert s[i := v][..|s| - 1] == front;
    } else {
      assert s[i := v][..|s| - 1] == front[i := v];
      TotalUpdate(front, i, v);
    }
  }

  lemma TotalAppend(s: seq<Usage>, v: Usage)
    ensures Total(s + [v]) == Plus(Total(s), v)
  {
    assert (s + [v])[..|s|] == s;
  }

  lemma {:induction false} TotalCovers(s: seq<Usage>, i: nat)
    requires i < |s|
    ensures s[i].count <= Total(s).count && s[i].bytes <= Total(s).bytes
  {
    if i < |s| - 1 { TotalCovers(s[..|s| - 1], i); }
  }

  lemma {:induction false} TotalOfNothing(s: seq<Usage>)
    requires forall u :: u in s ==> u == Usage(0, 0)
    ensures Total(s) == Usage(0, 0)
  {
    if s != [] {
      var front, last := s[..|s| - 1], s[|s| - 1];
      forall u | u in front ensures u == Usage(0, 0) { assert u in s; }
      TotalOfNothing(front);
      assert last in s;
      assert Total(s) == Plus(Total(front), last);
    }
  }

  /** One budget object; a reservation is handed out as an index and releases at most once. */
  class Budget {
    const limits: Limits
    var usage: Usage
    var open: seq<Usage>

    ghost predicate Valid()
      reads this
    {
      Within(usage, limits) && usage == Total(open) && forall i :: 0 <= i < |open| ==> open[i].count <= 1
    }

    constructor (limits: Limits)
      requires 1 <= limits.maxOperations <= 1024 && 1 <= limits.maxBytes <= 128 * 1024 * 1024
      ensures Valid() && usage == Usage(0, 0) && this.limits == limits
    {
      this.limits, usage, open := limits, Usage(0, 0), [];
    }

    method Reserve(bytes: nat) returns (ok: bool, ticket: nat)
      requires Valid()
      modifies this
      ensures Valid()
      ensures ok <==> CanReserve(old(usage), bytes, limits)
      ensures ok ==> usage == Plus(old(usage), Usage(1, bytes)) && open == old(open) + [Usage(1, bytes)] && ticket == |old(open)|
      ensures !ok ==> usage == old(usage) && open == old(open)
    {
      ok, ticket := CanReserve(usage, bytes, limits), |open|;
      if ok {
        assert (open + [Usage(1, bytes)])[..|open|] == open;
        usage, open := Plus(usage, Usage(1, bytes)), open + [Usage(1, bytes)];
      }
    }

    /** Releasing twice gives nothing back the second time. */
    method Release(ticket: nat)
      requires Valid() && ticket < |open|
      modifies this
      ensures Valid() && open == old(open)[ticket := Usage(0, 0)]
      ensures Plus(usage, old(open)[ticket]) == old(usage)
    {
      TotalUpdate(open, ticket, Usage(0, 0));
      usage, open := Minus(usage, open[ticket]), open[ticket := Usage(0, 0)];
    }
  }

  // ---------------------------------------------------------------- one operation

  /** Where the asynchronous body of `run` is suspended. */
  datatype Stage = Capturing | Staging | Committing | Draining | Done

  /** `retained` are the pieces of work whose settlement still holds the input; 0 is the preparation
      itself. */
  datatype Op = Op(
    gate: nat, bytes: nat, stage: Stage, phase: Phase, cancelled: bool, signalled: bool,
    preparing: bool, retained: set<nat>)

  datatype AuthorizeResult = Answer(authorized: bool) | AuthorizeThrew | NotBoolean(pending: set<nat>)
  datatype FinalizeResult = Clean | FinalizeThrew | NotVoid(pending: set<nat>)

  datatype Event =
    | Signal
    | Cancel
    | CaptureDone(ok: bool)
    | Observe(work: nat)
    | Settle(work: nat)
    | PrepareDone(ok: bool, wellFormed: bool)
    | Finish(contextMatches: bool, authorize: AuthorizeResult, finalize: FinalizeResult)
    | HookDone

  /** What one event did: the new operation, whether the finalizer ran, whether the gate poisoned. */
  datatype Outcome = Outcome(op: Op, finalized: bool, poisoned: bool)

  function CancelOp(o: Op): Op {
    if o.phase == Committed || o.cancelled then o
    else o.(phase := AdvancePhase(o.phase, CancelEvent, false, false), cancelled := true)
  }

  /** The check made at every resumption: a fired signal cancels first. */
  function CheckActive(o: Op): Op { if o.signalled then CancelOp(o) else o }

  function Drain(o: Op): Op { o.(stage := Draining, preparing := false) }

  function OnCapture(o: Op, ok: bool): Op {
    var c := CheckActive(o);
    if !ok || c.cancelled then Drain(c)
    else c.(stage := Staging, preparing := true, retained := c.retained + {0})
  }

  function OnPrepared(o: Op, ok: bool, wellFormed: bool): Op {
    var c := CheckActive(o.(preparing := false));
    if !ok || c.cancelled || c.retained != {} || !wellFormed then Drain(c)
    else c.(stage := Committing, phase := AdvancePhase(c.phase, PrepareEvent, true, false))
  }

  /** The synchronous commit callback: active, prepared, context, authorization, then the finalizer. */
  function OnFinish(o: Op, contextMatches: bool, authorize: AuthorizeResult, finalize: FinalizeResult): Outcome {
    var c := CheckActive(o);
    if c.cancelled || c.phase != Prepared then Outcome(c, false, false)
    else if contextMatches && authorize.AuthorizeThrew? then Outcome(c, false, false)
    else if contextMatches && authorize.NotBoolean? then Outcome(c.(retained := c.retained + authorize.pending), false, false)
    else
      var authorized := contextMatches && authorize.Answer? && authorize.authorized;
      var next := AdvancePhase(c.phase, CommitEvent, contextMatches, authorized);
      if next != Committed then Outcome(c, false, false)
      else
        var done := c.(phase := next);
        match finalize
        case Clean => Outcome(done, true, false)
        case FinalizeThrew => Outcome(done, true, true)
        case NotVoid(pending) => Outcome(done.(retained := done.retained + pending), true, true)
  }

  function Respond(o: Op, e: Event): Option<Outcome> {
    match e
    case Signal => Some(Outcome(o.(signalled := true), false, false))
    case Cancel => if o.stage == Draining || o.stage == Done then None else Some(Outcome(CancelOp(o), false, false))
    case CaptureDone(ok) => if o.stage != Capturing then None else Some(Outcome(OnCapture(o, ok), false, false))
    case Observe(work) =>
      if o.preparing && work > 0 then Some(Outcome(o.(retained := o.retained + {work}), false, false))
      else if o.preparing then None
      else Some(Outcome(o, false, false))
    case Settle(work) => Some(Outcome(o.(retained := o.retained - {work}), false, false))
    case PrepareDone(ok, wellFormed) =>
      // a preparation that cannot be observed fails at once, with its settlement still retained
      if o.stage != Staging || (ok && 0 in o.retained) then None
      else Some(Outcome(OnPrepared(o, ok, wellFormed), false, false))
    case Finish(contextMatches, authorize, finalize) =>
      if o.stage != Committing then None else Some(OnFinish(o, contextMatches, authorize, finalize))
    case HookDone => if o.stage != Committing then None else Some(Outcome(Drain(o), false, false))
  }

  // ---------------------------------------------------------------- the gates

  /** One run of a finalizer, with what was true when it ran. */
  datatype Commit = Commit(id: nat, contextMatches: bool, authorized: bool, cancelled: bool)

  datatype World = World(
    limits: seq<Limits>, inputLimit: nat, shared: Limits,
    local: seq<Usage>, total: Usage, ops: seq<Op>, releases: seq<nat>, log: seq<Commit>, poisoned: set<nat>)

  datatype Step = Start(gate: nat, bytes: nat, aborted: bool) | React(id: nat, event: Event) | Release(id: nat)

  function Fresh(gate: nat, bytes: nat): Op { Op(gate, bytes, Capturing, Preparing, false, false, false, {}) }

  function StartOp(w: World, gate: nat, bytes: nat, aborted: bool): World
    requires gate < |w.local| == |w.limits|
  {
    if aborted || bytes > w.inputLimit || !CanReserve(w.total, bytes, w.shared)
       || !CanReserve(w.local[gate], bytes, w.limits[gate]) then w   // a half-done reservation is given back
    else
      var u := Usage(1, bytes);
      w.(total := Plus(w.total, u), local := w.local[gate := Plus(w.local[gate], u)],
         ops := w.ops + [Fresh(gate, bytes)], releases := w.releases + [0])
  }

  function Next(w: World, s: Step): Option<World> {
    match s
    case Start(gate, bytes, aborted) =>
      if gate < |w.local| && |w.local| == |w.limits| then Some(StartOp(w, gate, bytes, aborted)) else None
    case React(id, event) =>
      if id >= |w.ops| then None
      else
        var r := Respond(w.ops[id], event);
        if r.None? then None
        else Some(w.(ops := w.ops[id := r.value.op],
                     log := if r.value.finalized then w.log + [Record(id, w.ops[id], event)] else w.log,
                     poisoned := if r.value.poisoned then w.poisoned + {w.ops[id].gate} else w.poisoned))
    case Release(id) =>
      // the body ended and every retained piece of work settled
      if id >= |w.ops| || w.ops[id].stage != Draining || w.ops[id].retained != {} || w.ops[id].gate >= |w.local|
         || |w.releases| != |w.ops|
         || w.local[w.ops[id].gate].count < 1 || w.local[w.ops[id].gate].bytes < w.ops[id].bytes
         || w.total.count < 1 || w.total.bytes < w.ops[id].bytes then None
      else
        var o := w.ops[id];
        var u := Usage(1, o.bytes);
        Some(w.(ops := w.ops[id := o.(stage := Done)],
                local := w.local[o.gate := Minus(w.local[o.gate], u)],
                total := Minus(w.total, u), releases := w.releases[id := w.releases[id] + 1]))
  }

  function Record(id: nat, o: Op, e: Event): Commit {
    Commit(id, e.Finish? && e.contextMatches, e.Finish? && e.authorize == Answer(true), o.cancelled || o.signalled)
  }

  // ---------------------------------------------------------------- invariant

  predicate Holds(o: Op, gate: Option<nat>) { o.stage != Done && (gate.Some? ==> o.gate == gate.value) }

  function Charge(o: Op, gate: Option<nat>): Usage { if Holds(o, gate) then Usage(1, o.bytes) else Usage(0, 0) }

  /** What the operations that still hold their input are charged, for one gate or for all. */
  function Charges(ops: seq<Op>, gate: Option<nat>): seq<Usage> {
    seq(|ops|, i requires 0 <= i < |ops| => Charge(ops[i], gate))
  }

  function Charged(ops: seq<Op>, gate: Option<nat>): Usage { Total(Charges(ops, gate)) }

  function Commits(log: seq<Commit>, id: nat): nat {
    if log == [] then 0 else Commits(log[..|log| - 1], id) + if log[|log| - 1].id == id then 1 else 0
  }

  predicate OpInv(o: Op) {
    && (o.cancelled <==> o.phase == Cancelled)
    && (o.stage == Capturing ==> o.phase != Prepared && o.phase != Committed && o.retained == {} && !o.preparing)
    && (o.stage == Staging ==> o.phase != Prepared && o.phase != Committed)
    && (o.stage == Committing && !o.cancelled ==> o.phase == Prepared || o.phase == Committed)
    && (o.preparing ==> o.stage == Staging)
    && (o.stage == Done ==> o.retained == {})
  }

  predicate Good(c: Commit) { c.contextMatches && c.authorized && !c.cancelled }

  ghost predicate Inv(w: World) {
    && |w.local| == |w.limits| && |w.releases| == |w.ops|
    && (forall i :: 0 <= i < |w.ops| ==> OpInv(w.ops[i]) && w.ops[i].gate < |w.local|)
    && w.total == Charged(w.ops, None) && Within(w.total, w.shared)
    && (forall g :: 0 <= g < |w.local| ==> w.local[g] == Charged(w.ops, Some(g)) && Within(w.local[g], w.limits[g]))
    && (forall i :: 0 <= i < |w.ops| ==> w.releases[i] == if w.ops[i].stage == Done then 1 else 0)
    && (forall i :: 0 <= i < |w.log| ==> Good(w.log[i]) && w.log[i].id < |w.ops|)
    && (forall i :: 0 <= i < |w.ops| ==> Commits(w.log, i) == if w.ops[i].phase == Committed then 1 else 0)
  }

  predicate Initial(w: World) {
    && |w.local| == |w.limits|
    && (forall g :: 0 <= g < |w.local| ==> w.local[g] == Usage(0, 0))
    && w.total == Usage(0, 0) && w.ops == [] && w.releases == [] && w.log == []
  }

  // ---------------------------------------------------------------- proofs

  /** One event keeps the operation well formed and its charge; the finalizer runs only in the step
      that found the operation active, prepared, in context and authorized. */
  lemma ReactKeeps(o: Op, e: Event)
    requires OpInv(o) && Respond(o, e).Some?
    ensures var r := Respond(o, e).value;
      && OpInv(r.op) && r.op.gate == o.gate && r.op.bytes == o.bytes
      && (r.op.stage == Done <==> o.stage == Done)
      && (r.finalized ==>
            && e.Finish? && e.contextMatches && e.authorize == Answer(true)
            && o.phase == Prepared && !o.cancelled && !o.signalled && r.op.phase == Committed)
      && (!r.finalized ==> (r.op.phase == Committed <==> o.phase == Committed))
      && (o.phase == Committed ==> r.op.phase == Committed)
      && (o.cancelled ==> r.op.cancelled)
  {}

  /** The finalizer runs exactly when the commit hook answers for a prepared operation that nobody
      cancelled, in its context and authorized; the gate poisons exactly when that finalizer misbehaves. */
  lemma FinalizerRunsIff(o: Op, e: Event)
    requires OpInv(o) && Respond(o, e).Some?
    ensures var r := Respond(o, e).value;
      && (r.finalized <==>
            && e.Finish? && o.stage == Committing && o.phase == Prepared && !o.cancelled && !o.signalled
            && e.contextMatches && e.authorize == Answer(true))
      && (r.finalized ==> r.op.phase == Committed && r.op.stage == Committing)
      && (r.poisoned <==> r.finalized && e.finalize != Clean)
      && (r.finalized ==> r.op.retained == o.retained + if e.finalize.NotVoid? then e.finalize.pending else {})
  {}

  /** Capture leads on to preparation, and preparation to the commit hook, exactly when nothing failed,
      nobody cancelled and nothing is retained; a body that does not go on only drains. */
  lemma BodyGoesOnIff(o: Op, e: Event)
    requires OpInv(o) && Respond(o, e).Some?
    ensures var r := Respond(o, e).value.op;
      && (e.CaptureDone? ==>
            && o.stage == Capturing
            && r.stage == (if e.ok && !o.cancelled && !o.signalled then Staging else Draining)
            && (r.stage == Staging ==> r.preparing && r.retained == {0} && r.phase == o.phase))
      && (e.PrepareDone? ==>
            && o.stage == Staging && !r.preparing && r.retained == o.retained
            && r.stage == (if e.ok && e.wellFormed && !o.cancelled && !o.signalled && o.retained == {} then Committing else Draining)
            && (r.stage == Committing ==> r.phase == Prepared))
      && (e.HookDone? ==> o.stage == Committing && r == o.(stage := Draining))
      && (!e.CaptureDone? && !e.PrepareDone? && !e.HookDone? ==> r.stage == o.stage && r.preparing == o.preparing)
  {}

  /** Cancelling takes effect unless the finalizer already ran, and so does a fired signal when the body
      next looks; nothing else cancels. */
  lemma CancelledIff(o: Op, e: Event)
    requires OpInv(o) && Respond(o, e).Some?
    ensures var r := Respond(o, e).value.op;
      && (r.cancelled <==>
            || o.cancelled
            || (o.phase != Committed && (e.Cancel? || (o.signalled && (e.CaptureDone? || e.PrepareDone? || e.Finish?)))))
      && (r.signalled <==> o.signalled || e.Signal?)
  {}

  /** What holds the input: the preparation and the work it started, until each settles. */
  lemma RetainedIs(o: Op, e: Event)
    requires OpInv(o) && Respond(o, e).Some?
    ensures var r := Respond(o, e).value.op;
      && (e.Observe? ==> r.retained == if o.stage == Staging && o.preparing then o.retained + {e.work} else o.retained)
      && (e.Settle? ==> r.retained == o.retained - {e.work})
      && (e.Signal? || e.Cancel? || e.PrepareDone? || e.HookDone? ==> r.retained == o.retained)
      && (e.Finish? ==>
            var asked := o.phase == Prepared && !o.cancelled && !o.signalled && e.contextMatches;
            r.retained == o.retained
                          + (if asked && e.authorize.NotBoolean? then e.authorize.pending else {})
                          + (if asked && e.authorize == Answer(true) && e.finalize.NotVoid? then e.finalize.pending else {}))
  {}

  /** Which events can reach an operation: a preparation reports once its own settlement is in, or with an
      error; work is observed while preparing; the body's events come in its own stages. */
  lemma EventReachesIff(o: Op, e: Event)
    requires OpInv(o)
    ensures Respond(o, e).Some? <==>
              match e
              case Signal => true
              case Settle(_) => true
              case Cancel => o.stage == Capturing || o.stage == Staging || o.stage == Committing
              case CaptureDone(_) => o.stage == Capturing
              case Observe(work) => o.preparing ==> work != 0
              case PrepareDone(ok, _) => o.stage == Staging && (0 in o.retained ==> !ok)
              case Finish(_, _, _) => o.stage == Committing
              case HookDone => o.stage == Committing
  {}

  lemma ChargesUpdate(ops: seq<Op>, gate: Option<nat>, i: nat, o: Op)
    requires i < |ops|
    ensures Charges(ops[i := o], gate) == Charges(ops, gate)[i := Charge(o, gate)]
  {
    var after, updated := Charges(ops[i := o], gate), Charges(ops, gate)[i := Charge(o, gate)];
    forall k | 0 <= k < |ops| ensures after[k] == updated[k] { assert ops[i := o][k] == if k == i then o else ops[k]; }
  }

  lemma ChargedUpdate(ops: seq<Op>, gate: Option<nat>, i: nat, o: Op)
    requires i < |ops|
    ensures Plus(Charged(ops[i := o], gate), Charge(ops[i], gate)) == Plus(Charged(ops, gate), Charge(o, gate))
  {
    ChargesUpdate(ops, gate, i, o);
    TotalUpdate(Charges(ops, gate), i, Charge(o, gate));
  }

  lemma ChargesAppend(ops: seq<Op>, gate: Option<nat>, o: Op)
    ensures Charges(ops + [o], gate) == Charges(ops, gate) + [Charge(o, gate)]
  {
    var longer, shorter := Charges(ops + [o], gate), Charges(ops, gate);
    assert longer[|ops|] == Charge(o, gate);
    forall i | 0 <= i < |ops| ensures longer[i] == shorter[i] { assert (ops + [o])[i] == ops[i]; }
  }

  lemma ChargedAppend(ops: seq<Op>, gate: Option<nat>, o: Op)
    ensures Charged(ops + [o], gate) == Plus(Charged(ops, gate), Charge(o, gate))
  {
    ChargesAppend(ops, gate, o);
    TotalAppend(Charges(ops, gate), Charge(o, gate));
  }

  lemma CommitsAppend(log: seq<Commit>, c: Commit, id: nat)
    ensures Commits(log + [c], id) == Commits(log, id) + if c.id == id then 1 else 0
  {
    assert (log + [c])[..|log|] == log;
  }

  lemma {:induction false} NoCommits(log: seq<Commit>, id: nat)
    requires forall i :: 0 <= i < |log| ==> log[i].id != id
    ensures Commits(log, id) == 0
  {
    if log != [] { NoCommits(log[..|log| - 1], id); }
  }

  lemma StartKeeps(w: World, gate: nat, bytes: nat, aborted: bool)
    requires Inv(w) && gate < |w.local|
    ensures Inv(StartOp(w, gate, bytes, aborted))
  {
    var w' := StartOp(w, gate, bytes, aborted);
    if w' != w {
      var o := w'.ops[|w.ops|];
      ChargedAppend(w.ops, None, o);
      forall g | 0 <= g < |w.local| ensures w'.local[g] == Charged(w'.ops, Some(g)) && Within(w'.local[g], w.limits[g]) {
        ChargedAppend(w.ops, Some(g), o);
      }
      NoCommits(w.log, |w.ops|);
    }
  }

  lemma ReactStepKeeps(w: World, id: nat, e: Event, w': World)
    requires Inv(w) && Next(w, Step.React(id, e)) == Some(w')
    ensures Inv(w')
  {
    var o, r := w.ops[id], Respond(w.ops[id], e).value;
    ReactKeeps(o, e);
    ReactBudgets(w, id, r.op);
    ReactLog(w, id, e, w');
  }

  lemma ReactBudgets(w: World, id: nat, o: Op)
    requires id < |w.ops| && o.gate == w.ops[id].gate && o.bytes == w.ops[id].bytes
    requires o.stage == Done <==> w.ops[id].stage == Done
    ensures Charged(w.ops[id := o], None) == Charged(w.ops, None)
    ensures forall g: nat :: Charged(w.ops[id := o], Some(g)) == Charged(w.ops, Some(g))
  {
    ChargedUpdate(w.ops, None, id, o);
    forall g: nat ensures Charged(w.ops[id := o], Some(g)) == Charged(w.ops, Some(g)) {
      ChargedUpdate(w.ops, Some(g), id, o);
    }
  }

  lemma ReactLog(w: World, id: nat, e: Event, w': World)
    requires Inv(w) && Next(w, Step.React(id, e)) == Some(w')
    ensures forall i :: 0 <= i < |w'.log| ==> Good(w'.log[i]) && w'.log[i].id < |w'.ops|
    ensures forall i :: 0 <= i < |w'.ops| ==> Commits(w'.log, i) == if w'.ops[i].phase == Committed then 1 else 0
  {
    ReactKeeps(w.ops[id], e);
    forall i | 0 <= i < |w.ops| ensures Commits(w'.log, i) == if w'.ops[i].phase == Committed then 1 else 0 {
      CommitsAppend(w.log, Record(id, w.ops[id], e), i);
    }
  }

  lemma ReleaseKeeps(w: World, id: nat, w': World)
    requires Inv(w) && Next(w, Release(id)) == Some(w')
    ensures Inv(w')
  {
    var o := w.ops[id];
    ChargedUpdate(w.ops, None, id, o.(stage := Done));
    forall g | 0 <= g < |w.local| ensures w'.local[g] == Charged(w'.ops, Some(g)) && Within(w'.local[g], w.limits[g]) {
      ChargedUpdate(w.ops, Some(g), id, o.(stage := Done));
    }
  }

  lemma StepKeeps(w: World, s: Step, w': World)
    requires Inv(w) && Next(w, s) == Some(w')
    ensures Inv(w')
  {
    match s
    case Start(gate, bytes, aborted) => StartKeeps(w, gate, bytes, aborted);
    case React(id, e) => ReactStepKeeps(w, id, e, w');
    case Release(id) => ReleaseKeeps(w, id, w');
  }

  ghost predicate Run(ws: seq<World>, steps: seq<Step>) {
    && |ws| == |steps| + 1
    && Initial(ws[0])
    && forall i {:trigger steps[i]} :: 0 <= i < |steps| ==> Next(ws[i], steps[i]) == Some(ws[i + 1])
  }

  lemma {:induction false} RunKeeps(ws: seq<World>, steps: seq<Step>, i: nat)
    requires Run(ws, steps) && i < |ws|
    ensures Inv(ws[i])
    decreases i
  {
    if i > 0 {
      RunKeeps(ws, steps, i - 1);
      StepKeeps(ws[i - 1], steps[i - 1], ws[i]);
    }
  }

  // ---------------------------------------------------------------- theorems

  /** In every interleaving a finalizer runs at most once, and only in a step that found the context
      matching, the authorization current and the operation not cancelled. */
  lemma FinalizerRunsOnceAndChecked(ws: seq<World>, steps: seq<Step>, i: nat)
    requires Run(ws, steps) && i < |ws|
    ensures forall id :: 0 <= id < |ws[i].ops| ==>
              Commits(ws[i].log, id) <= 1 && (ws[i].ops[id].cancelled ==> Commits(ws[i].log, id) == 0)
    ensures forall k :: 0 <= k < |ws[i].log| ==>
              ws[i].log[k].contextMatches && ws[i].log[k].authorized && !ws[i].log[k].cancelled && ws[i].log[k].id < |ws[i].ops|
  {
    RunKeeps(ws, steps, i);
  }

  /** A finish that finds its operation in context, authorized and not cancelled leaves exactly one
      commit of it in the log, whatever else is going on. */
  lemma AuthorizedFinishCommits(ws: seq<World>, steps: seq<Step>, k: nat, id: nat, f: FinalizeResult)
    requires Run(ws, steps) && k < |steps| && steps[k] == Step.React(id, Finish(true, Answer(true), f))
    requires id < |ws[k].ops| && !ws[k].ops[id].cancelled && !ws[k].ops[id].signalled
    ensures id < |ws[k + 1].ops| && Commits(ws[k + 1].log, id) == 1
    ensures f != Clean && ws[k].ops[id].phase != Committed ==> ws[k].ops[id].gate in ws[k + 1].poisoned
  {
    RunKeeps(ws, steps, k);
    RunKeeps(ws, steps, k + 1);
    assert Next(ws[k], steps[k]) == Some(ws[k + 1]);
    FinalizerRunsIff(ws[k].ops[id], Finish(true, Answer(true), f));
  }

  /** An input is taken exactly when it is within the gate's limit and fits both budgets; then it is
      charged to both, and otherwise nothing happens. */
  lemma StartedIff(w: World, gate: nat, bytes: nat, aborted: bool)
    requires Inv(w) && gate < |w.local|
    ensures Next(w, Start(gate, bytes, aborted)).Some?
    ensures var w' := Next(w, Start(gate, bytes, aborted)).value;
      && (w' != w <==>
            && !aborted && bytes <= w.inputLimit
            && w.total.count < w.shared.maxOperations && w.total.bytes + bytes <= w.shared.maxBytes
            && w.local[gate].count < w.limits[gate].maxOperations && w.local[gate].bytes + bytes <= w.limits[gate].maxBytes)
      && (w' != w ==>
            && |w'.ops| == |w.ops| + 1 && w'.ops[..|w.ops|] == w.ops && w'.log == w.log
            && w'.total == Usage(w.total.count + 1, w.total.bytes + bytes)
            && w'.local == w.local[gate := Usage(w.local[gate].count + 1, w.local[gate].bytes + bytes)])
  {}

  /** What happens to an operation nobody disturbs: the events of its body, and then its release. */
  function Undisturbed(id: nat): seq<Step> {
    [Step.React(id, CaptureDone(true)), Step.React(id, Settle(0)), Step.React(id, PrepareDone(true, true)),
     Step.React(id, Finish(true, Answer(true), Clean)), Step.React(id, HookDone), Release(id)]
  }

  /** The world after the first n of these steps. */
  function After(w: World, steps: seq<Step>, n: nat): Option<World>
    requires n <= |steps|
  {
    if n == 0 then Some(w)
    else
      var before := After(w, steps, n - 1);
      if before.None? then None else Next(before.value, steps[n - 1])
  }

  /** The operation with the given id is in a given state, it alone moved, and it committed so often. */
  ghost predicate Moved(w: World, id: nat, o: Op, commits: nat, w': World) {
    && Inv(w') && id < |w.ops| && w' == w.(ops := w.ops[id := o], log := w'.log) && Commits(w'.log, id) == commits
  }

  ghost predicate MovedTo(w: World, steps: seq<Step>, n: nat, id: nat, o: Op, commits: nat) {
    n <= |steps| && After(w, steps, n).Some? && Moved(w, id, o, commits, After(w, steps, n).value)
  }

  lemma MovesOn(w: World, steps: seq<Step>, n: nat, id: nat, o: Op, commits: nat, e: Event)
    requires MovedTo(w, steps, n, id, o, commits) && n < |steps| && steps[n] == Step.React(id, e)
    requires Respond(o, e).Some? && !Respond(o, e).value.poisoned
    ensures var r := Respond(o, e).value;
      MovedTo(w, steps, n + 1, id, r.op, commits + if r.finalized then 1 else 0)
  {
    var w' := After(w, steps, n).value;
    assert w'.ops[id] == o;
    var w'' := Next(w', Step.React(id, e)).value;
    ReactStepKeeps(w', id, e, w'');
    CommitsAppend(w'.log, Record(id, o, e), id);
    assert w.ops[id := o][id := Respond(o, e).value.op] == w.ops[id := Respond(o, e).value.op];
  }

  lemma BodyResponds(gate: nat, bytes: nat)
    ensures var o := Fresh(gate, bytes);
      var staged := o.(stage := Staging, preparing := true);
      && Respond(o, CaptureDone(true)) == Some(Outcome(staged.(retained := {0}), false, false))
      && Respond(staged.(retained := {0}), Settle(0)) == Some(Outcome(staged, false, false))
      && Respond(staged, PrepareDone(true, true)) == Some(Outcome(o.(stage := Committing, phase := Prepared), false, false))
      && Respond(o.(stage := Committing, phase := Prepared), Finish(true, Answer(true), Clean))
         == Some(Outcome(o.(stage := Committing, phase := Committed), true, false))
      && Respond(o.(stage := Committing, phase := Committed), HookDone)
         == Some(Outcome(o.(stage := Draining, phase := Committed), false, false))
  {
    assert {} + {0} == {0} && {0} - {0} == {};
  }

  lemma BodyPrepares(w: World, id: nat, gate: nat, bytes: nat)
    requires Inv(w) && id < |w.ops| && w.ops[id] == Fresh(gate, bytes)
    ensures MovedTo(w, Undisturbed(id), 2, id, Fresh(gate, bytes).(stage := Staging, preparing := true), 0)
  {
    var o, s := w.ops[id], Undisturbed(id);
    BodyResponds(gate, bytes);
    assert w.ops[id := o] == w.ops;
    MovesOn(w, s, 0, id, o, 0, CaptureDone(true));
    MovesOn(w, s, 1, id, o.(stage := Staging, preparing := true, retained := {0}), 0, Settle(0));
  }

  lemma BodyFinishes(w: World, id: nat, gate: nat, bytes: nat)
    requires MovedTo(w, Undisturbed(id), 2, id, Fresh(gate, bytes).(stage := Staging, preparing := true), 0)
    ensures MovedTo(w, Undisturbed(id), 4, id, Fresh(gate, bytes).(stage := Committing, phase := Committed), 1)
  {
    var o, s := Fresh(gate, bytes), Undisturbed(id);
    BodyResponds(gate, bytes);
    MovesOn(w, s, 2, id, o.(stage := Staging, preparing := true), 0, PrepareDone(true, true));
    MovesOn(w, s, 3, id, o.(stage := Committing, phase := Prepared), 0, Finish(true, Answer(true), Clean));
  }

  /** After its body an undisturbed operation has committed once and only drains. */
  lemma BodyCommits(w: World, id: nat, gate: nat, bytes: nat)
    requires Inv(w) && id < |w.ops| && w.ops[id] == Fresh(gate, bytes)
    ensures MovedTo(w, Undisturbed(id), 5, id, Fresh(gate, bytes).(stage := Draining, phase := Committed), 1)
  {
    BodyPrepares(w, id, gate, bytes);
    BodyFinishes(w, id, gate, bytes);
    BodyResponds(gate, bytes);
    MovesOn(w, Undisturbed(id), 4, id, Fresh(gate, bytes).(stage := Committing, phase := Committed), 1, HookDone);
  }

  lemma ReleasesAll(w: World, id: nat, w': World, before: World)
    requires id < |w.ops| && w.ops[id].retained == {}
    requires Moved(w, id, w.ops[id].(stage := Draining, phase := Committed), 1, w')
    requires w.ops[id].gate < |before.local| && |w.local| == |before.local|
    requires w.total == Plus(before.total, Usage(1, w.ops[id].bytes))
    requires w.local == before.local[w.ops[id].gate := Plus(before.local[w.ops[id].gate], Usage(1, w.ops[id].bytes))]
    ensures Next(w', Release(id)).Some?
    ensures var done := Next(w', Release(id)).value;
      && done.total == before.total && done.local == before.local && id < |done.releases| && done.releases[id] == 1
      && done.log == w'.log && done.poisoned == w'.poisoned
  {
    TotalCovers(Charges(w'.ops, None), id);
    TotalCovers(Charges(w'.ops, Some(w.ops[id].gate)), id);
  }

  /** An operation that is taken and not disturbed commits once and gives back all it was charged. */
  lemma UndisturbedCommits(w: World, gate: nat, bytes: nat)
    requires Inv(w) && gate < |w.local| && StartOp(w, gate, bytes, false) != w
    ensures var id := |w.ops|;
      var done := After(StartOp(w, gate, bytes, false), Undisturbed(id), 6);
      && done.Some? && Commits(done.value.log, id) == 1 && done.value.poisoned == w.poisoned
      && done.value.total == w.total && done.value.local == w.local
      && id < |done.value.releases| && done.value.releases[id] == 1
  {
    var id, w0 := |w.ops|, StartOp(w, gate, bytes, false);
    StartKeeps(w, gate, bytes, false);
    BodyCommits(w0, id, gate, bytes);
    ReleasesAll(w0, id, After(w0, Undisturbed(id), 5).value, w);
  }

  lemma CancelledStays(w: World, s: Step, w': World, id: nat)
    requires Inv(w) && Next(w, s) == Some(w') && id < |w.ops| && w.ops[id].cancelled
    ensures id < |w'.ops| && w'.ops[id].cancelled
  {
    if s.React? && s.id == id { ReactKeeps(w.ops[id], s.event); }
  }

  lemma CancelledHasNone(w: World, id: nat)
    requires Inv(w) && id < |w.ops| && w.ops[id].cancelled
    ensures Commits(w.log, id) == 0
  {}

  /** Cancellation is final: a cancelled operation never commits later. */
  lemma {:induction false} CancelledNeverCommits(ws: seq<World>, steps: seq<Step>, i: nat, j: nat, id: nat)
    requires Run(ws, steps) && i <= j < |ws| && id < |ws[i].ops| && ws[i].ops[id].cancelled
    ensures id < |ws[j].ops| && ws[j].ops[id].cancelled && Commits(ws[j].log, id) == 0
    decreases j - i
  {
    if i < j {
      CancelledNeverCommits(ws, steps, i, j - 1, id);
      RunKeeps(ws, steps, j - 1);
      CancelledStays(ws[j - 1], steps[j - 1], ws[j], id);
    }
    RunKeeps(ws, steps, j);
    CancelledHasNone(ws[j], id);
  }

  /** The budgets are exactly the charges of the operations that have not let go of their input, each
      released at most once, and never over the limits. */
  lemma BudgetsAreExact(ws: seq<World>, steps: seq<Step>, i: nat)
    requires Run(ws, steps) && i < |ws|
    ensures var w := ws[i];
      && |w.limits| == |w.local| && |w.releases| == |w.ops|
      && w.total == Charged(w.ops, None) && Within(w.total, w.shared)
      && (forall g :: 0 <= g < |w.local| ==> w.local[g] == Charged(w.ops, Some(g)) && Within(w.local[g], w.limits[g]))
      && (forall id :: 0 <= id < |w.ops| ==>
            && w.releases[id] == (if w.ops[id].stage == Done then 1 else 0)
            && (w.ops[id].retained != {} ==> w.releases[id] == 0))
  {
    RunKeeps(ws, steps, i);
  }

  /** A body that ended can always give its charge back once its retained work has settled: the
      counters never underflow. */
  lemma DrainedCanRelease(ws: seq<World>, steps: seq<Step>, i: nat, id: nat)
    requires Run(ws, steps) && i < |ws| && id < |ws[i].ops|
    requires ws[i].ops[id].stage == Draining && ws[i].ops[id].retained == {}
    ensures Next(ws[i], Release(id)).Some?
  {
    RunKeeps(ws, steps, i);
    TotalCovers(Charges(ws[i].ops, None), id);
    TotalCovers(Charges(ws[i].ops, Some(ws[i].ops[id].gate)), id);
  }

  lemma NothingCharged(ops: seq<Op>, gate: Option<nat>)
    requires forall k :: 0 <= k < |ops| ==> ops[k].stage == Done
    ensures Charged(ops, gate) == Usage(0, 0)
  {
    var charges := Charges(ops, gate);
    forall u | u in charges ensures u == Usage(0, 0) {
      var k :| 0 <= k < |charges| && charges[k] == u;
    }
    TotalOfNothing(charges);
  }

  /** When every operation has finished, nothing stays charged. */
  lemma AllSettledMeansFree(ws: seq<World>, steps: seq<Step>, i: nat, gate: nat)
    requires Run(ws, steps) && i < |ws| && gate < |ws[i].local|
    requires forall k :: 0 <= k < |ws[i].ops| ==> ws[i].ops[k].stage == Done
    ensures ws[i].total == Usage(0, 0) && ws[i].local[gate] == Usage(0, 0)
  {
    RunKeeps(ws, steps, i);
    NothingCharged(ws[i].ops, None);
    NothingCharged(ws[i].ops, Some(gate));
  }
}
