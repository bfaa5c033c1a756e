/** What the gateway limiter's ten-second window is worth: the exact bound over any span shorter than
    ten seconds, and when it is twice the limit. */
module GatewayBursts {
  import opened Common
  import opened GatewayBounds
  import opened GatewayVisits
  import opened GatewayLimits

  // ---------------------------------------------------------------- the bound

  /** Less than ten seconds never holds more of one address than the bound, so never more than three
      times the limit; and no more than twice while the address was not forgotten in between. */
  lemma BurstsAreBounded(gs: seq<Gateway>, calls: seq<Call>, i: nat, ip: Ip, from: real, to: real)
    requires Run(gs, calls) && i < |gs| && to - from < TEN_SECONDS
    ensures var log, limits := LogOf(gs[i].past.addresses, ip), gs[i].limits;
      && VisitsIn(log, from, to) <= BurstBound(limits.attemptsPerIpPerTenSeconds, limits.attemptsPerIpPerMinute)
      && VisitsIn(log, from, to) <= 3 * limits.attemptsPerIpPerTenSeconds
      && ((forall u, v :: u in log && v in log && from <= u.time <= to && from <= v.time <= to ==> SameRecord(u, v)) ==>
            VisitsIn(log, from, to) <= 2 * limits.attemptsPerIpPerTenSeconds)
  {
    RunKeeps(gs, calls, i);
    var g := gs[i];
    var log, perTen, perMinute := LogOf(g.past.addresses, ip), g.limits.attemptsPerIpPerTenSeconds, g.limits.attemptsPerIpPerMinute;
    assert AddressOk(g.limits, g.past.clock, log, Find(g.addresses, ip));
    TenSecondsHold(log, perTen, perMinute, from, to);
    if forall u, v :: u in log && v in log && from <= u.time <= to && from <= v.time <= to ==> SameRecord(u, v) {
      TenSecondsOfOneRecord(log, perTen, perMinute, from, to);
    }
  }

  // ---------------------------------------------------------------- a run that reaches it

  /** The other limits leave room for one address that comes back and leaves at once. */
  predicate Roomy(limits: Limits) {
    && limits.maxConnections >= 1 && limits.maxConnectionsPerIp >= 1 && limits.maxTrackedIps >= 1
    && limits.attemptsPerMinute >= 3 * limits.attemptsPerIpPerTenSeconds + 1
  }

  /** Nobody is connected, address 0 is the only one seen, and at most n attempts were counted. */
  predicate Standing(g: Gateway, limits: Limits, n: nat) {
    && g.limits == limits && !g.exhausted && g.sessions == map[] && g.addresses.Keys <= {0}
    && (g.attempts.Some? ==> g.attempts.value.count <= n)
  }

  function Opened(limits: Limits): Gateway {
    Gateway(limits, map[], map[], None, 0, false, 0, Past(0.0, [], map[], map[], 0))
  }

  function LastState(gs: seq<Gateway>): Gateway
    requires gs != []
  {
    gs[|gs| - 1]
  }

  lemma StandingAdmits(g: Gateway, limits: Limits, n: nat, now: real)
    requires Roomy(limits) && Standing(g, limits, n) && n < limits.attemptsPerMinute
    requires Fits(limits, NextWindows(Evicted(g.addresses, now), 0, now))
    ensures Decide(g, now, 0) == Admitted
  {
    var kept := Evicted(g.addresses, now);
    assert SessionsOf(g.sessions, 0) == {};
    if 0 !in kept { assert kept == map[]; }
  }

  /** Address 0 is admitted and leaves again. */
  function Came(g: Gateway, now: real): Gateway { AfterRelease(AfterAdmit(g, now, 0), g.nextSession) }

  lemma CameStands(g: Gateway, limits: Limits, n: nat, now: real)
    requires Roomy(limits) && Standing(g, limits, n) && n < limits.attemptsPerMinute
    requires Fits(limits, NextWindows(Evicted(g.addresses, now), 0, now))
    ensures var w := NextWindows(Evicted(g.addresses, now), 0, now);
      && Standing(Came(g, now), limits, n + 1) && Came(g, now).past.clock == now
      && Came(g, now).addresses == map[0 := w]
      && LogOf(Came(g, now).past.addresses, 0) == LogOf(g.past.addresses, 0) + [Visit(now, w, true)]
  {
    StandingAdmits(g, limits, n, now);
    var w := NextWindows(Evicted(g.addresses, now), 0, now);
    assert Came(g, now).sessions == map[];
    assert Evicted(g.addresses, now)[0 := w] == map[0 := w];
  }

  lemma RunGrows(gs: seq<Gateway>, calls: seq<Call>, c: Call)
    requires Run(gs, calls) && (!c.ReleaseCall? ==> LastState(gs).past.clock <= c.now)
    ensures Run(gs + [Do(LastState(gs), c)], calls + [c])
  {
    var gs', calls' := gs + [Do(LastState(gs), c)], calls + [c];
    forall i | 0 <= i < |calls'|
      ensures gs'[i + 1] == Do(gs'[i], calls'[i]) && (!calls'[i].ReleaseCall? ==> gs'[i].past.clock <= calls'[i].now)
    {
      if i < |calls| { assert calls'[i] == calls[i]; }
    }
  }

  /** One more visit at the end of a run. */
  lemma Come(gs: seq<Gateway>, calls: seq<Call>, limits: Limits, n: nat, now: real) returns (gs': seq<Gateway>, calls': seq<Call>)
    requires Run(gs, calls) && Roomy(limits) && Standing(LastState(gs), limits, n) && n < limits.attemptsPerMinute
    requires LastState(gs).past.clock <= now
    requires Fits(limits, NextWindows(Evicted(LastState(gs).addresses, now), 0, now))
    ensures Run(gs', calls') && LastState(gs') == Came(LastState(gs), now) && Standing(LastState(gs'), limits, n + 1)
  {
    var g := LastState(gs);
    CameStands(g, limits, n, now);
    RunGrows(gs, calls, AdmitCall(0, now));
    gs', calls' := gs + [Do(g, AdmitCall(0, now))], calls + [AdmitCall(0, now)];
    RunGrows(gs', calls', ReleaseCall(g.nextSession));
    gs', calls' := gs' + [Do(LastState(gs'), ReleaseCall(g.nextSession))], calls' + [ReleaseCall(g.nextSession)];
  }

  function Raised(w: Windows, k: nat): Windows {
    Windows(Window(w.minute.start, w.minute.count + k), Window(w.burst.start, w.burst.count + k))
  }

  /** The run stands with n attempts counted at most and c admissions in the span, at time `now` with windows w. */
  ghost predicate Stage(gs: seq<Gateway>, calls: seq<Call>, limits: Limits, n: nat, now: real, w: Windows, from: real, to: real, c: nat) {
    && Run(gs, calls) && Standing(LastState(gs), limits, n) && LastState(gs).past.clock == now
    && LastState(gs).addresses == map[0 := w]
    && VisitsIn(LogOf(LastState(gs).past.addresses, 0), from, to) == c
  }

  /** One visit at a later time. */
  lemma ComeLater(gs: seq<Gateway>, calls: seq<Call>, limits: Limits, n: nat, earlier: real, w: Windows, from: real, to: real, c: nat, now: real)
    returns (gs': seq<Gateway>, calls': seq<Call>)
    requires Stage(gs, calls, limits, n, earlier, w, from, to, c) && earlier <= now
    requires Roomy(limits) && n < limits.attemptsPerMinute
    requires Fits(limits, NextWindows(Evicted(map[0 := w], now), 0, now))
    ensures Stage(gs', calls', limits, n + 1, now, NextWindows(Evicted(map[0 := w], now), 0, now), from, to,
                  c + if from <= now <= to then 1 else 0)
  {
    gs', calls' := Come(gs, calls, limits, n, now);
    CameStands(LastState(gs), limits, n, now);
    var v := Visit(now, NextWindows(Evicted(map[0 := w], now), 0, now), true);
    VisitsInAppend(LogOf(LastState(gs).past.addresses, 0), [v], from, to);
    assert [v][..0] == [];
  }

  /** k visits at one time inside the span, all in windows that are still running. */
  lemma {:induction false} ComeOften(gs: seq<Gateway>, calls: seq<Call>, limits: Limits, n: nat, earlier: real, w: Windows,
                                     from: real, to: real, c: nat, now: real, k: nat)
    returns (gs': seq<Gateway>, calls': seq<Call>)
    requires Stage(gs, calls, limits, n, earlier, w, from, to, c) && earlier <= now && from <= now <= to
    requires k > 0 || earlier == now
    requires Roomy(limits) && n + k <= limits.attemptsPerMinute && Fits(limits, Raised(w, k))
    requires now - w.minute.start < MINUTE && now - w.burst.start < TEN_SECONDS
    ensures Stage(gs', calls', limits, n + k, now, Raised(w, k), from, to, c + k)
    decreases k
  {
    if k == 0 { return gs, calls; }
    assert Evicted(map[0 := w], now) == map[0 := w];
    gs', calls' := ComeLater(gs, calls, limits, n, earlier, w, from, to, c, now);
    gs', calls' := ComeOften(gs', calls', limits, n + 1, now, Raised(w, 1), from, to, c + 1, now, k - 1);
  }

  lemma Begin(limits: Limits, from: real, to: real) returns (gs: seq<Gateway>, calls: seq<Call>)
    requires Roomy(limits) && Fits(limits, Windows(Window(0.0, 1), Window(0.0, 1))) && from > 0.0
    ensures Stage(gs, calls, limits, 1, 0.0, Windows(Window(0.0, 1), Window(0.0, 1)), from, to, 0)
  {
    var g := Opened(limits);
    assert Evicted(g.addresses, 0.0) == map[];
    gs, calls := Come([g], [], limits, 0, 0.0);
    CameStands(g, limits, 0, 0.0);
    var v := Visit(0.0, Windows(Window(0.0, 1), Window(0.0, 1)), true);
    assert LogOf(LastState(gs).past.addresses, 0) == [v] && [v][..0] == [];
  }

  /** Visits in the last ten seconds of a record: one opens the record, one opens a burst window late,
      more come at the end of that window, and then a full window. */
  lemma EndOfRecord(limits: Limits, early: nat) returns (gs: seq<Gateway>, calls: seq<Call>)
    requires Roomy(limits) && 1 <= early < limits.attemptsPerIpPerTenSeconds
    requires early + limits.attemptsPerIpPerTenSeconds + 2 <= limits.attemptsPerIpPerMinute
    ensures var perTen := limits.attemptsPerIpPerTenSeconds;
      Stage(gs, calls, limits, 2 + early + perTen, 54100.0,
            Windows(Window(0.0, 2 + early + perTen), Window(54100.0, perTen)), 53900.0, 60000.0, early + perTen)
  {
    var perTen, w := limits.attemptsPerIpPerTenSeconds, Windows(Window(0.0, 1), Window(0.0, 1));
    gs, calls := Begin(limits, 53900.0, 60000.0);
    assert Evicted(map[0 := w], 44000.0) == map[0 := w];
    gs, calls := ComeLater(gs, calls, limits, 1, 0.0, w, 53900.0, 60000.0, 0, 44000.0);
    w := Windows(Window(0.0, 2), Window(44000.0, 1));
    gs, calls := ComeOften(gs, calls, limits, 2, 44000.0, w, 53900.0, 60000.0, 0, 53900.0, early);
    w := Raised(w, early);
    assert Evicted(map[0 := w], 54100.0) == map[0 := w];
    gs, calls := ComeLater(gs, calls, limits, 2 + early, 53900.0, w, 53900.0, 60000.0, early, 54100.0);
    w := Windows(Window(0.0, 3 + early), Window(54100.0, 1));
    gs, calls := ComeOften(gs, calls, limits, 3 + early, 54100.0, w, 53900.0, 60000.0, early + 1, 54100.0, perTen - 1);
  }

  /** Then the record runs out and a new one starts with a full window of its own. */
  lemma NextRecord(limits: Limits, early: nat) returns (gs: seq<Gateway>, calls: seq<Call>)
    requires Roomy(limits) && 1 <= early < limits.attemptsPerIpPerTenSeconds
    requires early + limits.attemptsPerIpPerTenSeconds + 2 <= limits.attemptsPerIpPerMinute
    ensures Run(gs, calls) && LastState(gs).limits == limits
    ensures VisitsIn(LogOf(LastState(gs).past.addresses, 0), 53900.0, 60000.0) == early + 2 * limits.attemptsPerIpPerTenSeconds
  {
    var perTen := limits.attemptsPerIpPerTenSeconds;
    gs, calls := EndOfRecord(limits, early);
    var n, w := 2 + early + perTen, Windows(Window(0.0, 2 + early + perTen), Window(54100.0, perTen));
    assert Evicted(map[0 := w], 60000.0) == map[];
    gs, calls := ComeLater(gs, calls, limits, n, 54100.0, w, 53900.0, 60000.0, early + perTen, 60000.0);
    w := Windows(Window(60000.0, 1), Window(60000.0, 1));
    gs, calls := ComeOften(gs, calls, limits, n + 1, 60000.0, w, 53900.0, 60000.0, early + perTen + 1, 60000.0, perTen - 1);
  }

  /** Where the bound exceeds twice the limit it is reached: 6.1 seconds that hold exactly that many. */
  lemma BurstBoundIsReached(limits: Limits) returns (gs: seq<Gateway>, calls: seq<Call>)
    requires Roomy(limits) && limits.attemptsPerIpPerTenSeconds >= 2
    requires limits.attemptsPerIpPerMinute >= limits.attemptsPerIpPerTenSeconds + 3
    ensures Run(gs, calls) && LastState(gs).limits == limits
    ensures var bound := BurstBound(limits.attemptsPerIpPerTenSeconds, limits.attemptsPerIpPerMinute);
      && VisitsIn(LogOf(LastState(gs).past.addresses, 0), 53900.0, 60000.0) == bound
      && bound > 2 * limits.attemptsPerIpPerTenSeconds
  {
    var perTen, perMinute := limits.attemptsPerIpPerTenSeconds, limits.attemptsPerIpPerMinute;
    gs, calls := NextRecord(limits, if 2 * perTen - 1 <= perMinute - 2 then perTen - 1 else perMinute - 2 - perTen);
  }

  // ---------------------------------------------------------------- exactly when twice the limit holds

  /** In every run under these limits, less than ten seconds hold at most twice the ten-second limit. */
  ghost predicate TwiceHolds(limits: Limits) {
    forall gs: seq<Gateway>, calls: seq<Call>, i: nat, ip: Ip, from: real, to: real ::
      Run(gs, calls) && 0 <= i < |gs| && gs[i].limits == limits && to - from < TEN_SECONDS ==>
        VisitsIn(LogOf(gs[i].past.addresses, ip), from, to) <= 2 * limits.attemptsPerIpPerTenSeconds
  }

  lemma TwiceHoldsIff(limits: Limits)
    ensures limits.attemptsPerIpPerTenSeconds <= 1 || limits.attemptsPerIpPerMinute <= limits.attemptsPerIpPerTenSeconds + 2 ==>
              TwiceHolds(limits)
    ensures Roomy(limits) && TwiceHolds(limits) ==>
              limits.attemptsPerIpPerTenSeconds <= 1 || limits.attemptsPerIpPerMinute <= limits.attemptsPerIpPerTenSeconds + 2
  {
    if limits.attemptsPerIpPerTenSeconds <= 1 || limits.attemptsPerIpPerMinute <= limits.attemptsPerIpPerTenSeconds + 2 {
      forall gs: seq<Gateway>, calls: seq<Call>, i: nat, ip: Ip, from: real, to: real
        | Run(gs, calls) && 0 <= i < |gs| && gs[i].limits == limits && to - from < TEN_SECONDS
        ensures VisitsIn(LogOf(gs[i].past.addresses, ip), from, to) <= 2 * limits.attemptsPerIpPerTenSeconds
      {
        BurstsAreBounded(gs, calls, i, ip, from, to);
      }
    } else if Roomy(limits) {
      var gs, calls := BurstBoundIsReached(limits);
      assert VisitsIn(LogOf(gs[|gs| - 1].past.addresses, 0), 53900.0, 60000.0) > 2 * limits.attemptsPerIpPerTenSeconds;
      assert !TwiceHolds(limits);
    }
  }

  /** The limits the relay ships with. */
  const DEMO_LIMITS := Limits(16, 4, 30, 6, 3, 512, 2 * 1024 * 1024, 32 * 1024 * 1024, 64 * 1024, 128 * 1024)

  /** Under them one address can be admitted seven times in 6.1 seconds, and never more often in less
      than ten. */
  lemma DemoAdmitsSeven() returns (gs: seq<Gateway>, calls: seq<Call>)
    ensures Run(gs, calls) && LastState(gs).limits == DEMO_LIMITS
    ensures VisitsIn(LogOf(LastState(gs).past.addresses, 0), 53900.0, 60000.0) == 7
    ensures BurstBound(DEMO_LIMITS.attemptsPerIpPerTenSeconds, DEMO_LIMITS.attemptsPerIpPerMinute) == 7
    ensures !TwiceHolds(DEMO_LIMITS)
  {
    gs, calls := BurstBoundIsReached(DEMO_LIMITS);
    TwiceHoldsIff(DEMO_LIMITS);
  }
}
