/** The relay gateway's limiter: admission windows, session count, byte budget and token buckets. */
module GatewayLimits {
  import opened Common
  import opened GatewayBounds
  import opened GatewayVisits

  type Ip = nat
  type SessionId = nat

  datatype Limits = Limits(
    maxConnections: nat, maxConnectionsPerIp: nat, attemptsPerMinute: nat, attemptsPerIpPerMinute: nat,
    attemptsPerIpPerTenSeconds: nat, maxTrackedIps: nat, sessionBytes: nat, totalBytes: nat,
    bytesPerSecond: nat, burstBytes: nat)

  datatype Session = Session(ip: Ip, bytes: nat, tokens: real, refilledAt: real)

  /** History: the latest clock reading; every counted attempt, overall and per address; every
      accounted transfer; all bytes that passed. */
  datatype Past = Past(
    clock: real, attempts: seq<Mark>, addresses: map<Ip, seq<Visit>>, transfers: map<SessionId, seq<Transfer>>, passed: nat)

  datatype Gateway = Gateway(
    limits: Limits, addresses: map<Ip, Windows>, sessions: map<SessionId, Session>, attempts: Option<Window>,
    bytes: nat, exhausted: bool, nextSession: SessionId, past: Past)

  // ---------------------------------------------------------------- admission

  function NextAttempts(attempts: Option<Window>, now: real): Window {
    if attempts.None? then Window(now, 1) else Increment(attempts.value, now, MINUTE)
  }

  predicate Expired(w: Windows, now: real) { now - w.minute.start >= MINUTE }

  function Evicted(addresses: map<Ip, Windows>, now: real): map<Ip, Windows> {
    map ip | ip in addresses && !Expired(addresses[ip], now) :: addresses[ip]
  }

  function NextWindows(kept: map<Ip, Windows>, ip: Ip, now: real): Windows {
    var w := if ip in kept then kept[ip] else Windows(Window(now, 0), Window(now, 0));
    Windows(Increment(w.minute, now, MINUTE), Increment(w.burst, now, TEN_SECONDS))
  }

  function SessionsOf(sessions: map<SessionId, Session>, ip: Ip): set<SessionId> {
    set id | id in sessions && sessions[id].ip == ip
  }

  datatype Outcome = Closed | Throttled | Untracked | Refused | Admitted

  function Decide(g: Gateway, now: real, ip: Ip): Outcome {
    var kept := Evicted(g.addresses, now);
    if g.exhausted then Closed
    else if NextAttempts(g.attempts, now).count > g.limits.attemptsPerMinute then Throttled
    else if ip !in kept && |kept| >= g.limits.maxTrackedIps then Untracked
    else
      var w := NextWindows(kept, ip, now);
      if w.minute.count > g.limits.attemptsPerIpPerMinute || w.burst.count > g.limits.attemptsPerIpPerTenSeconds
         || |g.sessions| >= g.limits.maxConnections || |SessionsOf(g.sessions, ip)| >= g.limits.maxConnectionsPerIp
      then Refused else Admitted
  }

  function LogOf<K, V>(m: map<K, seq<V>>, k: K): seq<V> { if k in m then m[k] else [] }

  predicate Marks(outcome: Outcome) { outcome == Refused || outcome == Admitted }

  function KeptAddresses(addresses: map<Ip, Windows>, now: real, ip: Ip, outcome: Outcome): map<Ip, Windows> {
    var kept := Evicted(addresses, now);
    if Marks(outcome) then kept[ip := NextWindows(kept, ip, now)] else if outcome == Untracked then kept else addresses
  }

  function KeptVisits(logs: map<Ip, seq<Visit>>, addresses: map<Ip, Windows>, now: real, ip: Ip, outcome: Outcome): map<Ip, seq<Visit>> {
    if !Marks(outcome) then logs
    else
      logs[ip := LogOf(logs, ip) + [Visit(now, NextWindows(Evicted(addresses, now), ip, now), outcome == Admitted)]]
  }

  /** What an attempt with a given outcome leaves behind: the global window, then the pruned addresses,
      then the address's own windows, then a session. */
  function Recorded(g: Gateway, now: real, ip: Ip, outcome: Outcome): Gateway {
    var a, counts, admitted := NextAttempts(g.attempts, now), outcome != Closed, outcome == Admitted;
    g.(attempts := if counts then Some(a) else g.attempts,
       addresses := KeptAddresses(g.addresses, now, ip, outcome),
       sessions := if admitted then g.sessions[g.nextSession := Session(ip, 0, g.limits.burstBytes as real, now)] else g.sessions,
       nextSession := if admitted then g.nextSession + 1 else g.nextSession,
       past := g.past.(
         clock := now,
         attempts := if counts then g.past.attempts + [Mark(now, a.start, admitted)] else g.past.attempts,
         addresses := KeptVisits(g.past.addresses, g.addresses, now, ip, outcome)))
  }

  function AfterAdmit(g: Gateway, now: real, ip: Ip): Gateway { Recorded(g, now, ip, Decide(g, now, ip)) }

  // ---------------------------------------------------------------- traffic

  function Rate(limits: Limits): real { limits.bytesPerSecond as real / 1000.0 }

  function Min(a: real, b: real): real { if a <= b then a else b }

  function Refilled(limits: Limits, s: Session, now: real): real {
    Min(limits.burstBytes as real, s.tokens + Refill(Rate(limits), if now >= s.refilledAt then now - s.refilledAt else 0.0))
  }

  predicate Passes(g: Gateway, id: SessionId, bytes: nat, now: real) {
    && id in g.sessions && !g.exhausted && g.bytes + bytes < g.limits.totalBytes
    && g.sessions[id].bytes + bytes <= g.limits.sessionBytes
    && Refilled(g.limits, g.sessions[id], now) - bytes as real >= 0.0
  }

  /** Traffic is accounted whether or not it passes; what does not fit the total closes the gateway. */
  function AfterConsume(g: Gateway, id: SessionId, bytes: nat, now: real): Gateway {
    var past := g.past.(clock := now);
    if id !in g.sessions || g.exhausted then g.(past := past)
    else if bytes > g.limits.totalBytes - g.bytes then g.(exhausted := true, past := past)
    else
      var s := g.sessions[id];
      var tokens, passes := Refilled(g.limits, s, now) - bytes as real, Passes(g, id, bytes, now);
      g.(bytes := g.bytes + bytes, exhausted := g.bytes + bytes >= g.limits.totalBytes,
         sessions := g.sessions[id := Session(s.ip, s.bytes + bytes, tokens, now)],
         past := past.(transfers := past.transfers[id := LogOf(past.transfers, id) + [Transfer(now, bytes, tokens, passes)]],
                       passed := past.passed + if passes then bytes else 0))
  }

  function AfterRelease(g: Gateway, id: SessionId): Gateway { g.(sessions := g.sessions - {id}) }

  // ---------------------------------------------------------------- the two decisions, spelled out

  /** What is left of a window at a time: its count while it runs, nothing once it has run out. */
  function Used(w: Option<Window>, now: real, duration: real): nat {
    if w.Some? && now - w.value.start < duration then w.value.count else 0
  }

  /** A window after one more attempt: the running one counts on, otherwise a new one starts at one. */
  function Counted(w: Option<Window>, now: real, duration: real): Window {
    if w.Some? && now - w.value.start < duration then Window(w.value.start, w.value.count + 1) else Window(now, 1)
  }

  /** The record of an address, if it was made less than a minute ago. */
  function Remembered(g: Gateway, ip: Ip, now: real): Option<Windows> {
    if ip in g.addresses && now - g.addresses[ip].minute.start < 60000.0 then Some(g.addresses[ip]) else None
  }

  /** An attempt is admitted exactly while the gateway is open, every window has an attempt left, a new
      address finds fewer remembered ones than the table holds, and both session limits have room. */
  lemma AdmittedIff(g: Gateway, now: real, ip: Ip)
    ensures var known := Remembered(g, ip, now);
      Decide(g, now, ip) == Admitted <==>
        && !g.exhausted && Used(g.attempts, now, 60000.0) < g.limits.attemptsPerMinute
        && (known.None? ==> |set a | a in g.addresses && now - g.addresses[a].minute.start < 60000.0| < g.limits.maxTrackedIps)
        && Used(if known.Some? then Some(known.value.minute) else None, now, 60000.0) < g.limits.attemptsPerIpPerMinute
        && Used(if known.Some? then Some(known.value.burst) else None, now, 10000.0) < g.limits.attemptsPerIpPerTenSeconds
        && |g.sessions| < g.limits.maxConnections
        && |set id | id in g.sessions && g.sessions[id].ip == ip| < g.limits.maxConnectionsPerIp
  {
    var kept := Evicted(g.addresses, now);
    assert kept.Keys == set a | a in g.addresses && now - g.addresses[a].minute.start < 60000.0;
    assert |kept| == |kept.Keys|;
    assert SessionsOf(g.sessions, ip) == set id | id in g.sessions && g.sessions[id].ip == ip;
  }

  /** What an attempt leaves: a session exactly if it was admitted, full of tokens; an attempt counted in
      every window it reached, admitted or not. */
  lemma AttemptLeaves(g: Gateway, now: real, ip: Ip)
    ensures var g', outcome := AfterAdmit(g, now, ip), Decide(g, now, ip);
      && g'.sessions == (if outcome == Admitted then g.sessions[g.nextSession := Session(ip, 0, g.limits.burstBytes as real, now)] else g.sessions)
      && (outcome != Closed ==> g'.attempts == Some(Counted(g.attempts, now, 60000.0)))
      && (outcome == Refused || outcome == Admitted ==>
            var known := Remembered(g, ip, now);
            && ip in g'.addresses
            && g'.addresses[ip] == Windows(Counted(if known.Some? then Some(known.value.minute) else None, now, 60000.0),
                                           Counted(if known.Some? then Some(known.value.burst) else None, now, 10000.0)))
      && (forall other :: other in g'.addresses && other != ip ==> other in g.addresses && g'.addresses[other] == g.addresses[other])
      && (outcome == Closed ==> g' == g.(past := g.past.(clock := now)))
      && g'.bytes == g.bytes && g'.exhausted == g.exhausted && g'.limits == g.limits
  {}

  /** Bytes pass exactly on an open gateway, for a live session, below the total, within the session's own
      limit and within what its bucket holds after refilling. */
  lemma PassesIff(g: Gateway, id: SessionId, bytes: nat, now: real)
    ensures Passes(g, id, bytes, now) <==>
              && !g.exhausted && id in g.sessions
              && g.bytes + bytes < g.limits.totalBytes && g.sessions[id].bytes + bytes <= g.limits.sessionBytes
              && bytes as real <= g.limits.burstBytes as real
              && var elapsed := if now >= g.sessions[id].refilledAt then now - g.sessions[id].refilledAt else 0.0;
              bytes as real <= g.sessions[id].tokens + g.limits.bytesPerSecond as real / 1000.0 * elapsed
  {}

  /** Traffic of a live session on an open gateway is charged to the total, to the session and to its
      bucket whether or not it passes; when it reaches the total the gateway closes, and when it would
      exceed it nothing is charged. */
  lemma TrafficLeaves(g: Gateway, id: SessionId, bytes: nat, now: real)
    ensures var g' := AfterConsume(g, id, bytes, now);
      && (g.exhausted || id !in g.sessions ==> g' == g.(past := g.past.(clock := now)))
      && (!g.exhausted && id in g.sessions ==>
            && (g'.exhausted <==> g.bytes + bytes >= g.limits.totalBytes)
            && (g.bytes + bytes > g.limits.totalBytes ==> g'.bytes == g.bytes && g'.sessions == g.sessions)
            && (g.bytes + bytes <= g.limits.totalBytes ==>
                  && g'.bytes == g.bytes + bytes && g'.sessions.Keys == g.sessions.Keys + {id}
                  && g'.sessions[id].bytes == g.sessions[id].bytes + bytes && g'.sessions[id].refilledAt == now
                  && g'.sessions[id].ip == g.sessions[id].ip
                  && g'.past.passed == g.past.passed + (if Passes(g, id, bytes, now) then bytes else 0)
                  && (var elapsed := if now >= g.sessions[id].refilledAt then now - g.sessions[id].refilledAt else 0.0;
                      var filled := g.sessions[id].tokens + g.limits.bytesPerSecond as real / 1000.0 * elapsed;
                      g'.sessions[id].tokens + bytes as real
                      == if g.limits.burstBytes as real <= filled then g.limits.burstBytes as real else filled)
                  && forall other :: other in g.sessions && other != id ==> other in g'.sessions && g'.sessions[other] == g.sessions[other]))
  {}

  // ---------------------------------------------------------------- invariant

  predicate AttemptLogOk(limit: nat, clock: real, attempts: Option<Window>, log: seq<Mark>) {
    if attempts.None? then log == []
    else attempts.value.start <= clock && CounterOk(log, limit, attempts.value.start, attempts.value.count)
  }

  predicate AttemptsOk(g: Gateway) {
    AttemptLogOk(g.limits.attemptsPerMinute, g.past.clock, g.attempts, g.past.attempts)
  }

  /** A remembered address stands at its last visit; a forgotten one at a record that ran out. */
  predicate AddressOk(limits: Limits, clock: real, log: seq<Visit>, windows: Option<Windows>) {
    && VisitsOk(log, limits.attemptsPerIpPerTenSeconds, limits.attemptsPerIpPerMinute)
    && (log != [] ==> log[|log| - 1].time <= clock)
    && (if windows.Some? then log != [] && log[|log| - 1].windows == windows.value
        else log != [] ==> log[|log| - 1].windows.minute.start + MINUTE <= clock)
  }

  function Find<K, V>(m: map<K, V>, k: K): Option<V> { if k in m then Some(m[k]) else None }

  ghost predicate AddressesOk(g: Gateway) {
    forall ip: Ip :: AddressOk(g.limits, g.past.clock, LogOf(g.past.addresses, ip), Find(g.addresses, ip))
  }

  predicate SessionOk(limits: Limits, clock: real, s: Session, log: seq<Transfer>) {
    && s.tokens <= limits.burstBytes as real && s.refilledAt <= clock
    && (log != [] ==> s.tokens == log[|log| - 1].tokens && s.refilledAt == log[|log| - 1].time)
  }

  ghost predicate SessionsOk(g: Gateway) {
    && |g.sessions| <= g.limits.maxConnections
    && (forall ip: Ip :: |SessionsOf(g.sessions, ip)| <= g.limits.maxConnectionsPerIp)
    && (forall id :: id in g.sessions ==> id < g.nextSession && SessionOk(g.limits, g.past.clock, g.sessions[id], LogOf(g.past.transfers, id)))
    && (forall id :: id in g.past.transfers ==> id < g.nextSession)
    && (forall id :: id in g.past.transfers ==> BucketOk(g.past.transfers[id], g.limits.burstBytes as real, Rate(g.limits)))
  }

  predicate BudgetOk(g: Gateway) {
    && g.bytes <= g.limits.totalBytes && g.past.passed <= g.bytes
    && (g.past.passed > 0 ==> g.past.passed < g.limits.totalBytes)
  }

  ghost predicate Inv(g: Gateway) { AttemptsOk(g) && AddressesOk(g) && SessionsOk(g) && BudgetOk(g) }

  // ---------------------------------------------------------------- every call keeps it

  lemma CountedOk(limit: nat, clock: real, now: real, attempts: Option<Window>, log: seq<Mark>, admitted: bool)
    requires AttemptLogOk(limit, clock, attempts, log) && clock <= now
    requires admitted ==> NextAttempts(attempts, now).count <= limit
    ensures var a := NextAttempts(attempts, now);
      AttemptLogOk(limit, now, Some(a), log + [Mark(now, a.start, admitted)])
  {
    var opens := attempts.None? || now - attempts.value.start >= MINUTE;
    var before := if opens then Window(now, 0) else attempts.value;
    if opens { OpenWindow(log, limit, now); }
    CountAttempt(log, limit, before.start, before.count, Mark(now, before.start, admitted));
  }

  lemma AttemptsKept(g: Gateway, now: real, ip: Ip, outcome: Outcome)
    requires AttemptsOk(g) && g.past.clock <= now
    requires outcome == Admitted ==> NextAttempts(g.attempts, now).count <= g.limits.attemptsPerMinute
    ensures AttemptsOk(Recorded(g, now, ip, outcome))
  {
    CountedOk(g.limits.attemptsPerMinute, g.past.clock, now, g.attempts, g.past.attempts, outcome == Admitted);
  }

  /** An address that was just forgotten had a window that already ran out. */
  lemma EvictedOk(limits: Limits, clock: real, now: real, log: seq<Visit>, addresses: map<Ip, Windows>, ip: Ip)
    requires clock <= now && AddressOk(limits, clock, log, Find(addresses, ip))
    ensures AddressOk(limits, now, log, Find(Evicted(addresses, now), ip))
  {}

  predicate Fits(limits: Limits, w: Windows) {
    w.minute.count <= limits.attemptsPerIpPerMinute && w.burst.count <= limits.attemptsPerIpPerTenSeconds
  }

  lemma VisitedOk(limits: Limits, now: real, log: seq<Visit>, kept: map<Ip, Windows>, ip: Ip, admitted: bool)
    requires AddressOk(limits, now, log, Find(kept, ip)) && (ip in kept ==> !Expired(kept[ip], now))
    requires admitted ==> Fits(limits, NextWindows(kept, ip, now))
    ensures var w := NextWindows(kept, ip, now);
      AddressOk(limits, now, log + [Visit(now, w, admitted)], Some(w))
  {
    VisitAppended(log, Visit(now, NextWindows(kept, ip, now), admitted),
                  limits.attemptsPerIpPerTenSeconds, limits.attemptsPerIpPerMinute);
  }

  lemma AddressKept(limits: Limits, clock: real, now: real, addresses: map<Ip, Windows>, logs: map<Ip, seq<Visit>>,
                    ip: Ip, outcome: Outcome, other: Ip)
    requires AddressOk(limits, clock, LogOf(logs, other), Find(addresses, other)) && clock <= now
    requires outcome == Admitted ==> Fits(limits, NextWindows(Evicted(addresses, now), ip, now))
    ensures AddressOk(limits, now, LogOf(KeptVisits(logs, addresses, now, ip, outcome), other),
                      Find(KeptAddresses(addresses, now, ip, outcome), other))
  {
    var log, kept := LogOf(logs, other), Evicted(addresses, now);
    EvictedOk(limits, clock, now, log, addresses, other);
    KeptLookup(addresses, logs, now, ip, outcome, other);
    if other == ip && Marks(outcome) { VisitedOk(limits, now, log, kept, ip, outcome == Admitted); }
  }

  /** What an attempt leaves for one address and its log. */
  lemma KeptLookup(addresses: map<Ip, Windows>, logs: map<Ip, seq<Visit>>, now: real, ip: Ip, outcome: Outcome, other: Ip)
    ensures var kept := Evicted(addresses, now);
      var w := NextWindows(kept, ip, now);
      && Find(KeptAddresses(addresses, now, ip, outcome), other)
         == (if Marks(outcome) then (if other == ip then Some(w) else Find(kept, other))
             else if outcome == Untracked then Find(kept, other) else Find(addresses, other))
      && LogOf(KeptVisits(logs, addresses, now, ip, outcome), other)
         == (if Marks(outcome) && other == ip then LogOf(logs, other) + [Visit(now, w, outcome == Admitted)]
             else LogOf(logs, other))
  {}

  lemma AddressesKept(g: Gateway, now: real, ip: Ip, outcome: Outcome)
    requires AddressesOk(g) && g.past.clock <= now
    requires outcome == Admitted ==> Fits(g.limits, NextWindows(Evicted(g.addresses, now), ip, now))
    ensures AddressesOk(Recorded(g, now, ip, outcome))
  {
    var g' := Recorded(g, now, ip, outcome);
    forall other: Ip
      ensures AddressOk(g'.limits, g'.past.clock, LogOf(g'.past.addresses, other), Find(g'.addresses, other))
    {
      AddressKept(g.limits, g.past.clock, now, g.addresses, g.past.addresses, ip, outcome, other);
    }
  }

  lemma NewSession(sessions: map<SessionId, Session>, id: SessionId, s: Session, ip: Ip)
    requires id !in sessions
    ensures SessionsOf(sessions[id := s], ip) == SessionsOf(sessions, ip) + (if s.ip == ip then {id} else {})
  {}

  lemma SessionsKept(g: Gateway, now: real, ip: Ip, outcome: Outcome)
    requires SessionsOk(g) && g.past.clock <= now
    requires outcome == Admitted ==>
               |g.sessions| < g.limits.maxConnections && |SessionsOf(g.sessions, ip)| < g.limits.maxConnectionsPerIp
    ensures SessionsOk(Recorded(g, now, ip, outcome))
  {
    var g' := Recorded(g, now, ip, outcome);
    if outcome == Admitted {
      forall other: Ip ensures |SessionsOf(g'.sessions, other)| <= g.limits.maxConnectionsPerIp {
        NewSession(g.sessions, g.nextSession, g'.sessions[g.nextSession], other);
      }
    }
  }

  lemma AdmitKeeps(g: Gateway, now: real, ip: Ip)
    requires Inv(g) && g.past.clock <= now
    ensures Inv(AfterAdmit(g, now, ip))
  {
    var outcome := Decide(g, now, ip);
    AttemptsKept(g, now, ip, outcome);
    AddressesKept(g, now, ip, outcome);
    SessionsKept(g, now, ip, outcome);
  }

  /** A transfer that is accounted for extends its session's bucket log. */
  lemma BucketKept(limits: Limits, clock: real, s: Session, log: seq<Transfer>, bytes: nat, now: real, passed: bool)
    requires SessionOk(limits, clock, s, log) && clock <= now && BucketOk(log, limits.burstBytes as real, Rate(limits))
    requires passed ==> Refilled(limits, s, now) - bytes as real >= 0.0
    ensures var tokens := Refilled(limits, s, now) - bytes as real;
      && BucketOk(log + [Transfer(now, bytes, tokens, passed)], limits.burstBytes as real, Rate(limits))
      && SessionOk(limits, now, Session(s.ip, s.bytes + bytes, tokens, now), log + [Transfer(now, bytes, tokens, passed)])
  {
    var after := log + [Transfer(now, bytes, Refilled(limits, s, now) - bytes as real, passed)];
    assert forall i :: 0 <= i < |log| ==> after[i] == log[i];
  }

  lemma SameSessions(sessions: map<SessionId, Session>, id: SessionId, s: Session, ip: Ip)
    requires id in sessions && s.ip == sessions[id].ip
    ensures SessionsOf(sessions[id := s], ip) == SessionsOf(sessions, ip)
    ensures |sessions[id := s]| == |sessions|
  {
    assert sessions[id := s].Keys == sessions.Keys;
    assert |sessions[id := s].Keys| == |sessions.Keys|;
  }

  lemma AccountedSessions(g: Gateway, id: SessionId, s: Session, t: Transfer, g': Gateway)
    requires SessionsOk(g) && id in g.sessions && s.ip == g.sessions[id].ip && g.past.clock <= t.time
    requires var log := LogOf(g.past.transfers, id) + [t];
      && SessionOk(g.limits, t.time, s, log) && BucketOk(log, g.limits.burstBytes as real, Rate(g.limits))
      && g'.past.transfers == g.past.transfers[id := log]
    requires g'.limits == g.limits && g'.sessions == g.sessions[id := s] && g'.nextSession == g.nextSession && g'.past.clock == t.time
    ensures SessionsOk(g')
  {
    forall ip: Ip ensures |SessionsOf(g'.sessions, ip)| <= g.limits.maxConnectionsPerIp && |g'.sessions| == |g.sessions| {
      SameSessions(g.sessions, id, s, ip);
    }
  }

  lemma ConsumeSessions(g: Gateway, id: SessionId, bytes: nat, now: real)
    requires SessionsOk(g) && g.past.clock <= now
    ensures SessionsOk(AfterConsume(g, id, bytes, now))
  {
    var g' := AfterConsume(g, id, bytes, now);
    if id in g.sessions && !g.exhausted && bytes <= g.limits.totalBytes - g.bytes {
      var s, log, passes := g.sessions[id], LogOf(g.past.transfers, id), Passes(g, id, bytes, now);
      BucketKept(g.limits, g.past.clock, s, log, bytes, now, passes);
      AccountedSessions(g, id, g'.sessions[id], Transfer(now, bytes, Refilled(g.limits, s, now) - bytes as real, passes), g');
    } else {
      assert g'.sessions == g.sessions && g'.past.transfers == g.past.transfers;
    }
  }

  lemma ConsumeKeeps(g: Gateway, id: SessionId, bytes: nat, now: real)
    requires Inv(g) && g.past.clock <= now
    ensures Inv(AfterConsume(g, id, bytes, now))
    ensures g.exhausted ==> AfterConsume(g, id, bytes, now).exhausted
  {
    ConsumeSessions(g, id, bytes, now);
    ConsumeBudget(g, id, bytes, now);
    ConsumeAdmissions(g, id, bytes, now);
  }

  lemma ConsumeBudget(g: Gateway, id: SessionId, bytes: nat, now: real)
    requires BudgetOk(g)
    ensures BudgetOk(AfterConsume(g, id, bytes, now)) && (g.exhausted ==> AfterConsume(g, id, bytes, now).exhausted)
  {}

  lemma ConsumeAdmissions(g: Gateway, id: SessionId, bytes: nat, now: real)
    requires AttemptsOk(g) && AddressesOk(g) && g.past.clock <= now
    ensures AttemptsOk(AfterConsume(g, id, bytes, now)) && AddressesOk(AfterConsume(g, id, bytes, now))
  {
    LaterAdmissions(g, AfterConsume(g, id, bytes, now));
  }

  /** Letting time pass changes nothing about admissions. */
  lemma LaterAdmissions(g: Gateway, g': Gateway)
    requires AttemptsOk(g) && AddressesOk(g) && g.past.clock <= g'.past.clock
    requires g'.limits == g.limits && g'.attempts == g.attempts && g'.addresses == g.addresses
    requires g'.past.attempts == g.past.attempts && g'.past.addresses == g.past.addresses
    ensures AttemptsOk(g') && AddressesOk(g')
  {
    forall ip: Ip ensures AddressOk(g'.limits, g'.past.clock, LogOf(g'.past.addresses, ip), Find(g'.addresses, ip)) {
      assert AddressOk(g.limits, g.past.clock, LogOf(g.past.addresses, ip), Find(g.addresses, ip));
    }
  }

  lemma ReleaseKeeps(g: Gateway, id: SessionId)
    requires Inv(g)
    ensures Inv(AfterRelease(g, id))
  {
    ReleaseSessions(g, id);
    LaterAdmissions(g, AfterRelease(g, id));
  }

  lemma ReleaseSessions(g: Gateway, id: SessionId)
    requires SessionsOk(g)
    ensures SessionsOk(AfterRelease(g, id))
  {
    var rest := g.sessions - {id};
    MapShrinks(g.sessions, id);
    forall ip: Ip ensures |SessionsOf(rest, ip)| <= g.limits.maxConnectionsPerIp {
      assert SessionsOf(rest, ip) == SessionsOf(g.sessions, ip) - {id};
    }
  }

  lemma MapShrinks<K, V>(m: map<K, V>, k: K)
    ensures |m - {k}| <= |m|
  {
    assert (m - {k}).Keys == m.Keys - {k};
    assert |m - {k}| == |(m - {k}).Keys| && |m| == |m.Keys|;
  }

  // ---------------------------------------------------------------- runs

  datatype Call = AdmitCall(ip: Ip, now: real) | ConsumeCall(id: SessionId, bytes: nat, now: real) | ReleaseCall(id: SessionId)

  function Do(g: Gateway, c: Call): Gateway {
    match c
    case AdmitCall(ip, now) => AfterAdmit(g, now, ip)
    case ConsumeCall(id, bytes, now) => AfterConsume(g, id, bytes, now)
    case ReleaseCall(id) => AfterRelease(g, id)
  }

  predicate Fresh(g: Gateway) {
    && g.addresses == map[] && g.sessions == map[] && g.attempts == None && g.bytes == 0 && !g.exhausted
    && g.past.attempts == [] && g.past.addresses == map[] && g.past.transfers == map[] && g.past.passed == 0
  }

  /** Calls on a clock that never goes back. */
  ghost predicate Run(gs: seq<Gateway>, calls: seq<Call>) {
    && |gs| == |calls| + 1 && Fresh(gs[0])
    && forall i {:trigger calls[i]} :: 0 <= i < |calls| ==>
         gs[i + 1] == Do(gs[i], calls[i]) && (!calls[i].ReleaseCall? ==> gs[i].past.clock <= calls[i].now)
  }

  lemma FreshOk(g: Gateway)
    requires Fresh(g)
    ensures Inv(g)
  {
    forall ip: Ip ensures SessionsOf(g.sessions, ip) == {} {}
  }

  lemma {:induction false} RunKeeps(gs: seq<Gateway>, calls: seq<Call>, i: nat)
    requires Run(gs, calls) && i < |gs|
    ensures Inv(gs[i])
    decreases i
  {
    if i == 0 {
      FreshOk(gs[0]);
    } else {
      RunKeeps(gs, calls, i - 1);
      match calls[i - 1]
      case AdmitCall(ip, now) => AdmitKeeps(gs[i - 1], now, ip);
      case ConsumeCall(id, bytes, now) => ConsumeKeeps(gs[i - 1], id, bytes, now);
      case ReleaseCall(id) => ReleaseKeeps(gs[i - 1], id);
    }
  }

  /** Less than a minute never holds more than twice the per-minute limit of admissions, over all
      addresses or for one. */
  lemma AdmissionsAreBounded(gs: seq<Gateway>, calls: seq<Call>, i: nat, ip: Ip, from: real, to: real)
    requires Run(gs, calls) && i < |gs| && to - from < MINUTE
    ensures AdmittedIn(gs[i].past.attempts, from, to) <= 2 * gs[i].limits.attemptsPerMinute
    ensures VisitsIn(LogOf(gs[i].past.addresses, ip), from, to) <= 2 * gs[i].limits.attemptsPerIpPerMinute
  {
    RunKeeps(gs, calls, i);
    var g := gs[i];
    SpanHoldsTwiceTheLimit(g.past.attempts, g.limits.attemptsPerMinute, from, to);
    assert AddressOk(g.limits, g.past.clock, LogOf(g.past.addresses, ip), Find(g.addresses, ip));
    MinuteHoldsTwiceTheLimit(LogOf(g.past.addresses, ip), g.limits.attemptsPerIpPerTenSeconds, g.limits.attemptsPerIpPerMinute, from, to);
  }

  /** A session never passes more than the burst plus the rate times the time taken. */
  lemma SessionTrafficIsBounded(gs: seq<Gateway>, calls: seq<Call>, i: nat, id: SessionId, j: nat, k: nat)
    requires Run(gs, calls) && i < |gs| && id in gs[i].past.transfers && j <= k < |gs[i].past.transfers[id]|
    ensures var log := gs[i].past.transfers[id];
      Passed(log, j, k) as real <= gs[i].limits.burstBytes as real + Refill(Rate(gs[i].limits), log[k].time - log[j].time)
  {
    RunKeeps(gs, calls, i);
    PassedIsBounded(gs[i].past.transfers[id], gs[i].limits.burstBytes as real, Rate(gs[i].limits), j, k);
  }

  /** All bytes that ever passed stay below the total budget, and the session caps hold. */
  lemma TotalTrafficIsBounded(gs: seq<Gateway>, calls: seq<Call>, i: nat, ip: Ip)
    requires Run(gs, calls) && i < |gs|
    ensures gs[i].past.passed > 0 ==> gs[i].past.passed < gs[i].limits.totalBytes
    ensures |gs[i].sessions| <= gs[i].limits.maxConnections
    ensures |SessionsOf(gs[i].sessions, ip)| <= gs[i].limits.maxConnectionsPerIp
  {
    RunKeeps(gs, calls, i);
  }

  /** Exhaustion is permanent: nobody is admitted and nothing passes any more. */
  lemma {:induction false} ExhaustionIsPermanent(gs: seq<Gateway>, calls: seq<Call>, i: nat, j: nat)
    requires Run(gs, calls) && i <= j < |gs| && gs[i].exhausted
    ensures gs[j].exhausted && gs[j].past.passed == gs[i].past.passed && gs[j].past.attempts == gs[i].past.attempts
    ensures gs[j].sessions.Keys <= gs[i].sessions.Keys
    decreases j - i
  {
    if i < j {
      ExhaustionIsPermanent(gs, calls, i, j - 1);
      ExhaustedStays(gs[j - 1], calls[j - 1]);
    }
  }

  lemma ExhaustedStays(g: Gateway, c: Call)
    requires g.exhausted
    ensures Do(g, c).exhausted && Do(g, c).past.passed == g.past.passed && Do(g, c).past.attempts == g.past.attempts
    ensures Do(g, c).sessions.Keys <= g.sessions.Keys
  {}

  // ---------------------------------------------------------------- the object

  class Limiter {
    const limits: Limits
    var addresses: map<Ip, Windows>
    var sessions: map<SessionId, Session>
    var attempts: Option<Window>
    var bytes: nat
    var exhausted: bool
    var nextSession: SessionId
    ghost var past: Past

    ghost function State(): Gateway
      reads this
    {
      Gateway(limits, addresses, sessions, attempts, bytes, exhausted, nextSession, past)
    }

    constructor (limits: Limits)
      ensures Fresh(State()) && this.limits == limits
    {
      this.limits, addresses, sessions, attempts := limits, map[], map[], None;
      bytes, exhausted, nextSession := 0, false, 0;
      past := Past(0.0, [], map[], map[], 0);
    }

    method DropExpired(now: real)
      modifies this`addresses
      ensures addresses == Evicted(old(addresses), now)
    {
      var left := addresses.Keys;
      while left != {}
        invariant left <= old(addresses).Keys
        invariant addresses == map ip | ip in old(addresses) && (ip in left || !Expired(old(addresses)[ip], now)) :: old(addresses)[ip]
        decreases left
      {
        var ip :| ip in left;
        if Expired(addresses[ip], now) { addresses := addresses - {ip}; }
        left := left - {ip};
      }
    }

    method Admit(ip: Ip, now: real) returns (session: Option<SessionId>)
      modifies this
      ensures State() == AfterAdmit(old(State()), now, ip)
      ensures session == if Decide(old(State()), now, ip) == Admitted then Some(old(nextSession)) else None
    {
      ghost var before := State();
      past := AfterAdmit(before, now, ip).past;
      if exhausted {
        assert Decide(before, now, ip) == Closed;
        return None;
      }
      var a := NextAttempts(attempts, now);
      attempts := Some(a);
      if a.count > limits.attemptsPerMinute {
        assert Decide(before, now, ip) == Throttled;
        return None;
      }
      DropExpired(now);
      if ip !in addresses && |addresses| >= limits.maxTrackedIps {
        assert Decide(before, now, ip) == Untracked;
        return None;
      }
      var w := NextWindows(addresses, ip, now);
      addresses := addresses[ip := w];
      var own := SessionsOf(sessions, ip);
      if w.minute.count > limits.attemptsPerIpPerMinute || w.burst.count > limits.attemptsPerIpPerTenSeconds
         || |sessions| >= limits.maxConnections || |own| >= limits.maxConnectionsPerIp {
        assert Decide(before, now, ip) == Refused;
        return None;
      }
      assert Decide(before, now, ip) == Admitted;
      sessions := sessions[nextSession := Session(ip, 0, limits.burstBytes as real, now)];
      session := Some(nextSession);
      nextSession := nextSession + 1;
    }

    method Consume(id: SessionId, count: nat, now: real) returns (ok: bool)
      modifies this
      ensures State() == AfterConsume(old(State()), id, count, now)
      ensures ok <==> Passes(old(State()), id, count, now)
    {
      ghost var before := State();
      past := AfterConsume(before, id, count, now).past;
      if id !in sessions || exhausted { return false; }
      if count > limits.totalBytes - bytes { exhausted := true; return false; }
      var s := sessions[id];
      bytes := bytes + count;
      if bytes >= limits.totalBytes { exhausted := true; }
      var tokens := Refilled(limits, s, now) - count as real;
      sessions := sessions[id := Session(s.ip, s.bytes + count, tokens, now)];
      ok := !exhausted && s.bytes + count <= limits.sessionBytes && tokens >= 0.0;
    }

    method Release(id: SessionId)
      modifies this`sessions
      ensures State() == AfterRelease(old(State()), id)
    {
      sessions := sessions - {id};
    }
  }
}
