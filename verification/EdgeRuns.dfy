// Runs at the edge of the end-to-end theorems: each shows that one of their conditions cannot be dropped.
module EdgeRuns {
  import opened Types
  import opened ControlLease
  import opened ControlProtocol
  import opened VehicleVerifier
  import opened EndToEnd
  import FailSafe
  import Gateway = ControlSystem
  import Vehicle = VehicleNode

  // ---------- building runs ----------

  lemma Then(w: World, acts: seq<Action>, a: Action, c: Vehicle.Config, ttl: int)
    ensures Run(w, acts + [a], c, ttl) == Apply(Run(w, acts, c, ttl), a, c, ttl)
  {
    RunConcat(w, acts, [a], c, ttl);
    assert [a][1..] == [];
  }

  predicate PhaseAllows(n: Vehicle.Node, t: int, c: Vehicle.Config) {
    match n.phase
    case Waiting(began, _, _) => t <= began + c.timeout
    case Sleeping(wake) => t <= wake + c.slack
  }

  // Time passes, with the watchdog checking every millisecond, and nothing else happens.
  function Later(w: World, d: nat, emergency: bool): World {
    w.(g := w.g.(now := w.g.now + d),
       n := w.n.(now := w.n.now + d, lastCheck := w.n.now + d, emergency := emergency))
  }

  lemma {:induction false} Wait(w: World, d: nat, c: Vehicle.Config, ttl: int) returns (acts: seq<Action>)
    requires c.checkGap >= 1 && w.n.lastCheck == w.n.now && PhaseAllows(w.n, w.n.now + d, c)
    ensures var w' := Run(w, acts, c, ttl); w' == Later(w, d, w'.n.emergency)
    decreases d
  {
    if d == 0 {
      acts := [];
    } else {
      var before := Wait(w, d - 1, c, ttl);
      Then(w, before, Pass(1), c, ttl);
      Then(w, before + [Pass(1)], Local(Vehicle.Check), c, ttl);
      acts := before + [Pass(1)] + [Local(Vehicle.Check)];
    }
  }

  const REFRESH: seq<Action> := [Begin, ServerRead(true), End(true)]

  // A refresh that is answered at once.
  lemma Refresh(w: World, c: Vehicle.Config, ttl: int)
    requires w.n.phase.Sleeping? && w.n.phase.wake <= w.n.now
    requires var s := Lookup(w.g.st.lease, c.limits.vehicleId, w.g.now); s.Some? ==> s.value.publicKey == c.keyOf(s.value.sessionId)
    ensures var r := ReadLease(w.g.st, c.limits.vehicleId, w.g.now, true);
            Run(w, REFRESH, c, ttl) ==
              World(w.g,
                    w.n.(v := Finish(Clear(w.n.v), Vehicle.SessionId(w.n.v), w.n.v.lastSequence, r, c.limits.vehicleId),
                         phase := Vehicle.Sleeping(w.n.now + c.interval), wiped := false),
                    None, w.g.now)
  {
    var r := ReadLease(w.g.st, c.limits.vehicleId, w.g.now, true);
    var w1 := Apply(w, Begin, c, ttl);
    var w2 := Apply(w1, ServerRead(true), c, ttl);
    assert w2.answer == Some(Answer(r, w.g.now));
    assert REFRESH[1..] == [ServerRead(true), End(true)] && REFRESH[1..][1..] == [End(true)] && REFRESH[1..][1..][1..] == [];
    assert Run(w, REFRESH, c, ttl) == Run(w1, REFRESH[1..], c, ttl) == Run(w2, [End(true)], c, ttl);
    assert Run(w2, [End(true)], c, ttl) == Apply(w2, End(true), c, ttl);
  }

  function Lease(at: int, c: Vehicle.Config, ttl: int): ControlSession {
    ControlSession("s", c.limits.vehicleId, "ann", c.keyOf("s"), SessionStatus.Active, at, at + ttl)
  }

  // Ann acquires the vehicle while no lease is live.
  function Acquire(at: int, c: Vehicle.Config, ttl: int): seq<Action> {
    [Gateways(Gateway.CallAcquire(0, Lease(at, c, ttl))), Gateways(Gateway.Advance(0))]
  }

  lemma Acquired(w: World, c: Vehicle.Config, ttl: int)
    requires w.g == Gateway.Init(w.g.now)
    ensures var w' := Run(w, Acquire(w.g.now, c, ttl), c, ttl);
            var s := Lease(w.g.now, c, ttl);
            && w' == w.(g := w'.g) && w'.g.now == w.g.now && w'.g.clients == map[0 := Done(Ok)]
            && w'.g.st.lease == map[s.vehicleId := Entry(s, w.g.now + ttl)]
            && w'.g.st.index == map["s" := Entry(s.vehicleId, w.g.now + ttl)]
            && w'.g.past.released == map[] && w'.g.past.issued.Keys == {"s"}
  {
    var acts := Acquire(w.g.now, c, ttl);
    var w1 := Apply(w, acts[0], c, ttl);
    assert acts[1..] == [acts[1]] && acts[1..][1..] == [];
    assert Run(w, acts, c, ttl) == Run(w1, [acts[1]], c, ttl) == Apply(w1, acts[1], c, ttl);
  }

  const STEP := Gateways(Gateway.Advance(1))

  // A request for Ann's live session, and both of its reads.
  lemma BothReads(w: World, req: Request, deadline: int, c: Vehicle.Config, ttl: int) returns (acts: seq<Action>)
    requires w.g.clients == map[0 := Done(Ok)] && w.g.now <= deadline && req.sid == "s" && req.op == "ann"
    requires var s := Lease(deadline - ttl, c, ttl);
             && w.g.st.lease == map[s.vehicleId := Entry(s, deadline)]
             && w.g.st.index == map["s" := Entry(s.vehicleId, deadline)]
    ensures var v := c.limits.vehicleId;
            Run(w, acts, c, ttl) == w.(g := w.g.(clients :=
              map[0 := Done(Ok), 1 := if req.Renew? then ReadingClock(req, v) else RunningScript(req, v, 0)]))
  {
    var v := c.limits.vehicleId;
    Then(w, [], Gateways(Gateway.Call(1, req)), c, ttl);
    acts := [] + [Gateways(Gateway.Call(1, req))];
    assert Run(w, acts, c, ttl) == w.(g := w.g.(clients := map[0 := Done(Ok), 1 := FindingVehicle(req)]));
    Then(w, acts, STEP, c, ttl);
    acts := acts + [STEP];
    assert Run(w, acts, c, ttl) == w.(g := w.g.(clients := map[0 := Done(Ok), 1 := ReadingLease(req, v)]));
    Then(w, acts, STEP, c, ttl);
    acts := acts + [STEP];
  }

  // The two scripts, on a store with Ann's lease alone.
  lemma ScriptsOnOneLease(st: Store, s: ControlSession, deadline: int, expiresAt: int, ttl: int, now: int)
    requires now <= deadline && s.status == SessionStatus.Active
    requires st.lease == map[s.vehicleId := Entry(s, deadline)] && st.index == map[s.sessionId := Entry(s.vehicleId, deadline)]
    ensures var (st', r) := RenewScript(st, s.vehicleId, s.sessionId, s.operatorId, expiresAt, ttl, now);
            r == 1 && st'.lease == map[s.vehicleId := Entry(s.(expiresAt := expiresAt), now + ttl)]
    ensures var (st', r) := ReleaseScript(st, s.vehicleId, s.sessionId, s.operatorId, now);
            r == 1 && st'.lease == map[]
  {
  }

  // A renewal with no gap between its steps.
  lemma Renewed(w: World, deadline: int, c: Vehicle.Config, ttl: int) returns (acts: seq<Action>)
    requires w.g.clients == map[0 := Done(Ok)] && w.g.now <= deadline
    requires var s := Lease(deadline - ttl, c, ttl);
             && w.g.st.lease == map[s.vehicleId := Entry(s, deadline)]
             && w.g.st.index == map["s" := Entry(s.vehicleId, deadline)]
    ensures var w' := Run(w, acts, c, ttl);
            var s := Lease(deadline - ttl, c, ttl).(expiresAt := w.g.now + ttl);
            && w' == w.(g := w'.g) && w'.g.now == w.g.now
            && w'.g.st.lease == map[s.vehicleId := Entry(s, w.g.now + ttl)]
  {
    var req, v := Renew("s", "ann"), c.limits.vehicleId;
    acts := BothReads(w, req, deadline, c, ttl);
    Then(w, acts, STEP, c, ttl);
    acts := acts + [STEP];
    assert Run(w, acts, c, ttl) == w.(g := w.g.(clients := map[0 := Done(Ok), 1 := RunningScript(req, v, w.g.now + ttl)]));
    Then(w, acts, STEP, c, ttl);
    acts := acts + [STEP];
    ScriptsOnOneLease(w.g.st, Lease(deadline - ttl, c, ttl), deadline, w.g.now + ttl, ttl, w.g.now);
  }

  // ---------- a replay after a local expiry ----------

  // From one due refresh to the next, with an answer at once and nothing received.
  predicate Quiet(w: World, c: Vehicle.Config) {
    && w.n.phase == Vehicle.Sleeping(w.n.now) && w.n.lastCheck == w.n.now && w.g.now == w.n.now + c.behind
    && w.n.log == [] && w.n.books == map[] && w.n.v.lastSequence == 0 && w.n.v.lastValid == -c.behind
  }

  ghost predicate KeyBound(w: World, c: Vehicle.Config) {
    forall v :: v in w.g.st.lease ==> w.g.st.lease[v].value.publicKey == c.keyOf(w.g.st.lease[v].value.sessionId)
  }

  lemma Period(w: World, d: nat, c: Vehicle.Config, ttl: int) returns (acts: seq<Action>)
    requires Quiet(w, c) && KeyBound(w, c) && c.checkGap >= 1 && d <= c.interval
    ensures var w' := Run(w, acts, c, ttl);
            && w'.g == w.g.(now := w.g.now + d)
            && w'.n.phase == Vehicle.Sleeping(w.n.now + c.interval) && w'.n.lastCheck == w'.n.now == w.n.now + d
            && w'.n.log == [] && w'.n.books == map[] && w'.n.v.lastSequence == 0 && w'.n.v.lastValid == -c.behind
  {
    Refresh(w, c, ttl);
    var w1 := Run(w, REFRESH, c, ttl);
    var rest := Wait(w1, d, c, ttl);
    acts := REFRESH + rest;
    RunConcat(w, REFRESH, rest, c, ttl);
  }

  lemma {:induction false} Periods(w: World, k: nat, c: Vehicle.Config, ttl: int) returns (acts: seq<Action>)
    requires Quiet(w, c) && KeyBound(w, c) && c.checkGap >= 1 && c.interval == 1000
    ensures var w' := Run(w, acts, c, ttl); w'.g == w.g.(now := w.g.now + 1000 * k) && Quiet(w', c)
    decreases k
  {
    if k == 0 {
      acts := [];
    } else {
      var first := Period(w, 1000, c, ttl);
      var w1 := Run(w, first, c, ttl);
      var rest := Periods(w1, k - 1, c, ttl);
      acts := first + rest;
      RunConcat(w, first, rest, c, ttl);
    }
  }

  // Ann acquires, and the vehicle waits.
  lemma AcquireThenWait(w: World, d: nat, c: Vehicle.Config, ttl: int) returns (acts: seq<Action>)
    requires c.checkGap >= 1 && w.g == Gateway.Init(w.g.now) && w.n.lastCheck == w.n.now && PhaseAllows(w.n, w.n.now + d, c)
    ensures var w' := Run(w, acts, c, ttl);
            var s := Lease(w.g.now, c, ttl);
            && w'.n == Later(w, d, w'.n.emergency).n && w'.g.now == w.g.now + d
            && w'.g.clients == map[0 := Done(Ok)] && w'.g.past.issued.Keys == {"s"}
            && w'.g.st.lease == map[s.vehicleId := Entry(s, w.g.now + ttl)]
            && w'.g.st.index == map["s" := Entry(s.vehicleId, w.g.now + ttl)]
  {
    var acquire := Acquire(w.g.now, c, ttl);
    Acquired(w, c, ttl);
    var wait := Wait(Run(w, acquire, c, ttl), d, c, ttl);
    acts := acquire + wait;
    RunConcat(w, acquire, wait, c, ttl);
  }

  // Ann acquires between the first two refreshes.
  lemma AcquiredBetween(at: nat, c: Vehicle.Config, ttl: int) returns (acts: seq<Action>)
    requires c.checkGap >= 1 && c.interval == 1000 && at < 1000
    ensures var w := Run(Start(0, c), acts, c, ttl);
            var s := Lease(at, c, ttl);
            && Quiet(w, c) && w.g.now == 1000 && w.g.clients == map[0 := Done(Ok)] && w.g.past.issued.Keys == {"s"}
            && w.g.st.lease == map[s.vehicleId := Entry(s, at + ttl)]
            && w.g.st.index == map["s" := Entry(s.vehicleId, at + ttl)]
  {
    var first := Period(Start(0, c), at, c, ttl);
    var rest := AcquireThenWait(Run(Start(0, c), first, c, ttl), 1000 - at, c, ttl);
    acts := first + rest;
    RunConcat(Start(0, c), first, rest, c, ttl);
  }

  // The vehicle refreshes every second until the last time before her lease runs out, unrenewed; that
  // refresh comes at `r`, and her lease ends at r + 990.
  lemma UntilLastRefresh(c: Vehicle.Config, ttl: int, r: int) returns (acts: seq<Action>)
    requires c.checkGap >= 1 && c.interval == 1000 && ttl >= 1000 && r == (ttl + 9) / 1000 * 1000
    ensures var w := Run(Start(0, c), acts, c, ttl);
            var s := Lease(r + 990 - ttl, c, ttl);
            && Quiet(w, c) && w.g.now == r && w.g.clients == map[0 := Done(Ok)] && w.g.past.issued.Keys == {"s"}
            && w.g.st.lease == map[s.vehicleId := Entry(s, r + 990)]
            && w.g.st.index == map["s" := Entry(s.vehicleId, r + 990)]
  {
    var first := AcquiredBetween(r + 990 - ttl, c, ttl);
    var w := Run(Start(0, c), first, c, ttl);
    var rest := Periods(w, (ttl + 9) / 1000 - 1, c, ttl);
    acts := first + rest;
    RunConcat(Start(0, c), first, rest, c, ttl);
  }

  // The refresh reads that record; then Ann's renewal succeeds and the vehicle hears nothing for 985 ms.
  lemma RenewedTooLate(c: Vehicle.Config, ttl: int, r: int) returns (acts: seq<Action>)
    requires c.behind == 0 && c.checkGap >= 1 && c.interval == 1000 && ttl >= 1000 && r == (ttl + 9) / 1000 * 1000
    ensures var w := Run(Start(0, c), acts, c, ttl);
            var s := Lease(r + 990 - ttl, c, ttl);
            && w.g.now == w.n.now == w.n.lastCheck == r + 985 && w.n.phase == Vehicle.Sleeping(r + 1000)
            && w.n.log == [] && w.n.books == map[] && w.n.v == Verifier(Some(s), 0, 0)
            && w.g.st.lease == map[s.vehicleId := Entry(s.(expiresAt := r + ttl), r + ttl)]
  {
    var before := UntilLastRefresh(c, ttl, r);
    var w0 := Run(Start(0, c), before, c, ttl);
    var s := Lease(r + 990 - ttl, c, ttl);
    Refresh(w0, c, ttl);
    assert Lookup(w0.g.st.lease, c.limits.vehicleId, r) == Some(s);
    var w1 := Run(w0, REFRESH, c, ttl);
    var renewal := Renewed(w1, r + 990, c, ttl);
    var w2 := Run(w1, renewal, c, ttl);
    var silence := Wait(w2, 985, c, ttl);
    acts := before + (REFRESH + (renewal + silence));
    RunConcat(w1, renewal, silence, c, ttl);
    RunConcat(w0, REFRESH, renewal + silence, c, ttl);
    RunConcat(Start(0, c), before, REFRESH + (renewal + silence), c, ttl);
  }

  // The watchdog brakes and leaves the cached session as it is.
  lemma EmergencyKeepsTheSession(c: Vehicle.Config, ttl: int) returns (acts: seq<Action>)
    requires c.behind == 0 && c.checkGap >= 1 && c.interval == 1000 && ttl >= 1000 && c.deadMan < 1000
    ensures var n := Run(Start(0, c), acts, c, ttl).n; n.emergency && n.v.session.Some?
  {
    acts := RenewedTooLate(c, ttl, (ttl + 9) / 1000 * 1000);
    WorldRunsAreVehicleRuns(Start(0, c), acts, c, ttl);
    FailSafe.EmergencyIffSilent(0, AllVehicleActs(Start(0, c), acts, c, ttl), c);
  }

  function Stop(at: int): Packet {
    Packet(PROTOCOL_VERSION, CONTROL_TYPE, "s", 1, at, HighLevel("stop"), "sig")
  }

  lemma StopIsSigned(n: Vehicle.Node, key: string, at: int)
    requires n.books == map[key := [Stop(at)]]
    ensures Signed(key, BuildSignMessage(Stop(at)), "sig") in Vehicle.SignedBy(n.books)
  {
    assert n.books[key][0] == Stop(at);
  }

  function Hear(p: Packet): Action {
    Local(Vehicle.Deliver(Json(p), "operator-ann"))
  }

  // Ann sends one command, which the vehicle accepts at once.
  lemma SentAndAccepted(w: World, s: ControlSession, at: int, c: Vehicle.Config, ttl: int)
    requires w.n.v == Verifier(Some(s), 0, w.n.v.lastValid) && s.sessionId == "s" && s.operatorId == "ann" && s.publicKey == c.keyOf("s")
    requires w.n.now == at <= s.expiresAt && w.n.books == map[] && w.n.log == []
    ensures var send := Local(Vehicle.Send(c.keyOf("s"), Stop(at)));
            var w1, w2 := Apply(w, send, c, ttl), Run(w, [send, Hear(Stop(at))], c, ttl);
            && Accepts(w1, Json(Stop(at)), "operator-ann", c)
            && w2 == w.(n := w2.n) && w2.n == w.n.(v := Verifier(Some(s), 1, at), emergency := false, books := w1.n.books, log := w2.n.log)
            && |w2.n.log| == 1 && w2.n.log[0].packet == Stop(at) && w1.n.books == map[c.keyOf("s") := [Stop(at)]]
            && w1 == w.(n := w.n.(books := w1.n.books))
  {
    var send := Local(Vehicle.Send(c.keyOf("s"), Stop(at)));
    var w1 := Apply(w, send, c, ttl);
    assert Vehicle.Book(w.n, c.keyOf("s")) + [Stop(at)] == [Stop(at)];
    StopIsSigned(w1.n, c.keyOf("s"), at);
    AcceptsExactly(w1.n.v, Json(Stop(at)), "operator-ann", at, Vehicle.SignedBy(w1.n.books), c.limits);
    assert [send, Hear(Stop(at))][1..] == [Hear(Stop(at))] && [Hear(Stop(at))][1..] == [];
    assert Run(w, [send, Hear(Stop(at))], c, ttl) == Run(w1, [Hear(Stop(at))], c, ttl) == Apply(w1, Hear(Stop(at)), c, ttl);
  }

  // A copy of the command reaches the vehicle when the cached record has just run out.
  lemma ClearedByCopy(w: World, s: ControlSession, r: int, c: Vehicle.Config, ttl: int) returns (acts: seq<Action>)
    requires c.checkGap >= 1 && c.interval == 1000 && s == Lease(r + 990 - ttl, c, ttl)
    requires w.n.now == w.n.lastCheck == r + 985 && w.n.phase == Vehicle.Sleeping(r + 1000)
    requires w.n.v == Verifier(Some(s), 1, r + 985)
    ensures var w' := Run(w, acts, c, ttl);
            && w'.g == w.g.(now := w.g.now + 15)
            && w'.n.now == r + 1000 && w'.n.phase == w.n.phase && w'.n.books == w.n.books && w'.n.log == w.n.log
            && w'.n.v == Verifier(None, 0, r + 985)
  {
    var p := Stop(r + 985);
    var a := Wait(w, 10, c, ttl);
    var w1 := Run(w, a, c, ttl);
    AcceptsExactly(w1.n.v, Json(p), "operator-ann", r + 995, Vehicle.SignedBy(w1.n.books), c.limits);
    var w2 := Run(w, a + [Hear(p)], c, ttl);
    Then(w, a, Hear(p), c, ttl);
    assert w2.n.v == Verifier(None, 0, r + 985);
    var b := Wait(w2, 5, c, ttl);
    acts := (a + [Hear(p)]) + b;
    RunConcat(w, a + [Hear(p)], b, c, ttl);
  }

  // Another copy, still fresh, reaches it right after the reload.
  lemma ReplayedAfterReload(w: World, s: ControlSession, r: int, c: Vehicle.Config, ttl: int)
    requires c.limits.maxAge >= 15 && s == Lease(r + 990 - ttl, c, ttl) && ttl > 0
    requires w.g.now == w.n.now == r + 1000 && w.n.phase == Vehicle.Sleeping(r + 1000)
    requires w.n.v == Verifier(None, 0, r + 985) && w.n.books == map[c.keyOf("s") := [Stop(r + 985)]]
    requires w.g.st.lease == map[s.vehicleId := Entry(s.(expiresAt := r + ttl), r + ttl)] && ttl >= 1000
    ensures var log := Run(w, REFRESH + [Hear(Stop(r + 985))], c, ttl).n.log;
            |log| == |w.n.log| + 1 && log[..|w.n.log|] == w.n.log && log[|w.n.log|].packet == Stop(r + 985)
  {
    var p := Stop(r + 985);
    Refresh(w, c, ttl);
    var w1 := Run(w, REFRESH, c, ttl);
    assert w1.n.v == Verifier(Some(s.(expiresAt := r + ttl)), 0, r + 985);
    StopIsSigned(w1.n, c.keyOf("s"), r + 985);
    assert Accepts(w1, Json(p), "operator-ann", c) by {
      AcceptsExactly(w1.n.v, Json(p), "operator-ann", r + 1000, Vehicle.SignedBy(w1.n.books), c.limits);
    }
    AcceptedIsLogged(w1.n, Json(p), "operator-ann", c);
    Then(w, REFRESH, Hear(p), c, ttl);
  }

  // With one constant lease time and the vehicle's own limits, a run of gateway and vehicle accepts a
  // packet twice: the record expires locally although the lease was renewed, a packet clears it, and the
  // refresh that follows loads the renewed record with its counter at 0. The renewal here comes later
  // than PromptRenewal allows.
  lemma PromptReloadReplays(c: Vehicle.Config, ttl: int) returns (acts: seq<Action>)
    requires c.behind == 0 && c.checkGap >= 1 && c.interval == 1000 && c.limits.maxAge >= 15 && ttl >= 1000
    ensures var log := Run(Start(0, c), acts, c, ttl).n.log; |log| == 2 && log[0].packet == log[1].packet
  {
    var r := (ttl + 9) / 1000 * 1000;
    var before := RenewedTooLate(c, ttl, r);
    var w0, s := Run(Start(0, c), before, c, ttl), Lease(r + 990 - ttl, c, ttl);
    SentAndAccepted(w0, s, r + 985, c, ttl);
    var heard := [Local(Vehicle.Send(c.keyOf("s"), Stop(r + 985))), Hear(Stop(r + 985))];
    var w1 := Run(w0, heard, c, ttl);
    var cleared := ClearedByCopy(w1, s, r, c, ttl);
    var again := REFRESH + [Hear(Stop(r + 985))];
    ReplayedAfterReload(Run(w1, cleared, c, ttl), s, r, c, ttl);
    acts := before + (heard + (cleared + again));
    RunConcat(w1, cleared, again, c, ttl);
    RunConcat(w0, heard, cleared + again, c, ttl);
    RunConcat(Start(0, c), before, heard + (cleared + again), c, ttl);
  }

  // ---------- the stale-control bound is met ----------

  lemma Released(w: World, c: Vehicle.Config, ttl: int) returns (acts: seq<Action>)
    requires ttl > 0 && w.g.now == 0 && w.g.clients == map[0 := Done(Ok)] && w.g.past.released == map[]
    requires var s := Lease(0, c, ttl);
             && w.g.st.lease == map[s.vehicleId := Entry(s, ttl)]
             && w.g.st.index == map["s" := Entry(s.vehicleId, ttl)]
    ensures var w' := Run(w, acts, c, ttl);
            && w' == w.(g := w'.g) && w'.g.now == 0 && w'.g.st.lease == map[] && w'.g.past.released == map["s" := 0]
            && w'.g.past.issued == w.g.past.issued && w'.g.clients.Keys == {0, 1}
  {
    acts := BothReads(w, Release("s", "ann"), ttl, c, ttl);
    Then(w, acts, STEP, c, ttl);
    acts := acts + [STEP];
    ScriptsOnOneLease(w.g.st, Lease(0, c, ttl), ttl, 0, ttl, 0);
  }

  // Ann's lease is read for a refresh and released at once, before the answer arrives.
  lemma ReadThenReleased(c: Vehicle.Config, ttl: int) returns (acts: seq<Action>)
    requires ttl > 0
    ensures var w := Run(Start(0, c), acts, c, ttl);
            && w.g.now == 0 && w.n.now == w.n.lastCheck == -c.behind && w.n.phase == Vehicle.Waiting(-c.behind, None, 0)
            && w.n.log == [] && w.n.books == map[] && w.n.v == Verifier(None, 0, -c.behind)
            && w.answer == Some(Answer(Reply(Lease(0, c, ttl), true), 0))
            && w.g.st.lease == map[] && w.g.past.released == map["s" := 0]
  {
    var s, first := Lease(0, c, ttl), Acquire(0, c, ttl);
    Acquired(Start(0, c), c, ttl);
    Then(Start(0, c), first, Begin, c, ttl);
    Then(Start(0, c), first + [Begin], ServerRead(true), c, ttl);
    var read := first + [Begin] + [ServerRead(true)];
    var w := Run(Start(0, c), read, c, ttl);
    assert w.answer == Some(Answer(Reply(s, true), 0));
    var release := Released(w, c, ttl);
    acts := read + release;
    RunConcat(Start(0, c), read, release, c, ttl);
  }

  // The answer takes its full timeout, and the refresher wakes as late as it may.
  lemma LoadedLate(c: Vehicle.Config, ttl: int) returns (acts: seq<Action>)
    requires c.checkGap >= 1 && ttl > 0
    ensures var w := Run(Start(0, c), acts, c, ttl);
            && w.g.now == c.timeout + c.interval + c.slack == w.n.now + c.behind && w.n.log == [] && w.n.books == map[]
            && w.n.v == Verifier(Some(Lease(0, c, ttl)), 0, -c.behind)
            && w.g.st.lease == map[] && w.g.past.released == map["s" := 0]
  {
    var read := ReadThenReleased(c, ttl);
    var w0 := Run(Start(0, c), read, c, ttl);
    var a := Wait(w0, c.timeout, c, ttl);
    Then(w0, a, End(true), c, ttl);
    var w1 := Run(w0, a + [End(true)], c, ttl);
    assert w1.n.v == Verifier(Some(Lease(0, c, ttl)), 0, -c.behind);
    var b := Wait(w1, c.interval + c.slack, c, ttl);
    acts := read + ((a + [End(true)]) + b);
    RunConcat(w0, a + [End(true)], b, c, ttl);
    RunConcat(Start(0, c), read, (a + [End(true)]) + b, c, ttl);
  }

  // At that instant, the last one the end-to-end theorem allows, Ann's command is still accepted.
  lemma AuthorityBoundIsMet(c: Vehicle.Config, ttl: int) returns (acts: seq<Action>)
    requires c.checkGap >= 1 && ttl >= c.timeout + c.interval + c.slack - c.behind && ttl > 0
    ensures var w := Run(Start(0, c), acts, c, ttl);
            && Accepts(w, Json(Stop(w.n.now)), "operator-ann", c)
            && c.limits.vehicleId !in w.g.st.lease && "s" in w.g.past.released
            && w.g.now == w.g.past.released["s"] + c.timeout + c.interval + c.slack
  {
    var late := LoadedLate(c, ttl);
    var w := Run(Start(0, c), late, c, ttl);
    var send := Local(Vehicle.Send(c.keyOf("s"), Stop(w.n.now)));
    SentAndAccepted(w, Lease(0, c, ttl), w.n.now, c, ttl);
    Then(Start(0, c), late, send, c, ttl);
    acts := late + [send];
  }

  // ---------- a slow clock ----------

  function BobsLease(at: int, c: Vehicle.Config, ttl: int): ControlSession {
    ControlSession("b", c.limits.vehicleId, "bob", c.keyOf("b"), SessionStatus.Active, at, at + ttl)
  }

  // Bob acquires a vehicle that no live lease holds.
  lemma BobAcquires(w: World, c: Vehicle.Config, ttl: int) returns (acts: seq<Action>)
    requires 2 !in w.g.clients && "b" !in w.g.past.issued && Lookup(w.g.st.lease, c.limits.vehicleId, w.g.now).None?
    ensures var w' := Run(w, acts, c, ttl);
            && w' == w.(g := w'.g) && w'.g.now == w.g.now && c.limits.vehicleId in w'.g.st.lease
            && w'.g.st.lease[c.limits.vehicleId] == Entry(BobsLease(w.g.now, c, ttl), w.g.now + ttl)
  {
    var call, step := Gateways(Gateway.CallAcquire(2, BobsLease(w.g.now, c, ttl))), Gateways(Gateway.Advance(2));
    Then(w, [], call, c, ttl);
    acts := [] + [call];
    assert Run(w, acts, c, ttl).g.clients[2] == Acquiring(BobsLease(w.g.now, c, ttl));
    Then(w, acts, step, c, ttl);
    acts := acts + [step];
  }

  // The vehicle's clock is behind: Ann's lease has lapsed in Redis and Bob holds the vehicle, and at the
  // last instant the end-to-end theorem allows, her command is still accepted.
  lemma SlowClockOutlivesTheLease(c: Vehicle.Config, ttl: int) returns (acts: seq<Action>)
    requires c.checkGap >= 1 && c.interval == 1000 && ttl >= 1000 && 1 <= c.behind <= 10 + c.slack
    ensures var w := Run(Start(0, c), acts, c, ttl);
            var lease := Lookup(w.g.st.lease, c.limits.vehicleId, w.g.now);
            && Accepts(w, Json(Stop(w.n.now)), "operator-ann", c)
            && lease.Some? && lease.value.sessionId == "b"
            && w.n.v.session.Some? && w.g.now == w.n.v.session.value.expiresAt + c.behind
  {
    var r := (ttl + 9) / 1000 * 1000;
    var s := Lease(r + 990 - ttl, c, ttl);
    var before := UntilLastRefresh(c, ttl, r);
    var w0 := Run(Start(0, c), before, c, ttl);
    Refresh(w0, c, ttl);
    assert Lookup(w0.g.st.lease, c.limits.vehicleId, r) == Some(s);
    var w1 := Run(w0, REFRESH, c, ttl);
    assert w1.n.v == Verifier(Some(s), 0, -c.behind);
    var silence := Wait(w1, 990 + c.behind, c, ttl);
    var w2 := Run(w1, silence, c, ttl);
    var bob := BobAcquires(w2, c, ttl);
    var w3 := Run(w2, bob, c, ttl);
    var send := Local(Vehicle.Send(c.keyOf("s"), Stop(w3.n.now)));
    SentAndAccepted(w3, s, w3.n.now, c, ttl);
    Then(w2, bob, send, c, ttl);
    acts := before + (REFRESH + (silence + (bob + [send])));
    RunConcat(w1, silence, bob + [send], c, ttl);
    RunConcat(w0, REFRESH, silence + (bob + [send]), c, ttl);
    RunConcat(Start(0, c), before, REFRESH + (silence + (bob + [send])), c, ttl);
  }

  // ---------- a handover to higher numbers ----------

  // Ann's command 1 is accepted, she releases, and Bob acquires.
  lemma AnnThenBob(c: Vehicle.Config, ttl: int) returns (acts: seq<Action>)
    requires c.behind == 0 && c.checkGap >= 1 && ttl > 0
    ensures var w := Run(Start(0, c), acts, c, ttl);
            && w.g.now == w.n.now == w.n.lastCheck == 0 && w.n.phase == Vehicle.Sleeping(c.interval)
            && w.n.v == Verifier(Some(Lease(0, c, ttl)), 1, 0) && w.n.books == map[c.keyOf("s") := [Stop(0)]]
            && |w.n.log| == 1 && w.n.log[0].packet == Stop(0)
            && c.limits.vehicleId in w.g.st.lease && w.g.st.lease[c.limits.vehicleId] == Entry(BobsLease(0, c, ttl), ttl)
  {
    var s, first := Lease(0, c, ttl), Acquire(0, c, ttl);
    Acquired(Start(0, c), c, ttl);
    var w0 := Run(Start(0, c), first, c, ttl);
    Refresh(w0, c, ttl);
    assert Lookup(w0.g.st.lease, c.limits.vehicleId, 0) == Some(s);
    var w1 := Run(w0, REFRESH, c, ttl);
    assert w1.n.v == Verifier(Some(s), 0, 0);
    SentAndAccepted(w1, s, 0, c, ttl);
    var heard := [Local(Vehicle.Send(c.keyOf("s"), Stop(0))), Hear(Stop(0))];
    var w2 := Run(w1, heard, c, ttl);
    var release := Released(w2, c, ttl);
    var w3 := Run(w2, release, c, ttl);
    var bob := BobAcquires(w3, c, ttl);
    acts := first + (REFRESH + (heard + (release + bob)));
    RunConcat(w2, release, bob, c, ttl);
    RunConcat(w1, heard, release + bob, c, ttl);
    RunConcat(w0, REFRESH, heard + (release + bob), c, ttl);
    RunConcat(Start(0, c), first, REFRESH + (heard + (release + bob)), c, ttl);
  }

  function BobsStop(k: int, at: int): Packet {
    Packet(PROTOCOL_VERSION, CONTROL_TYPE, "b", k, at, HighLevel("stop"), "sig")
  }

  lemma SentIsSigned(n: Vehicle.Node, key: string, p: Packet, c: Vehicle.Config)
    requires Vehicle.Follows(Vehicle.Book(n, key), p)
    ensures var n' := Vehicle.Apply(n, Vehicle.Send(key, p), c);
            && n' == n.(books := n'.books)
            && Signed(key, BuildSignMessage(p), p.signature) in Vehicle.SignedBy(n'.books)
  {
    var n' := Vehicle.Apply(n, Vehicle.Send(key, p), c);
    assert n'.books[key][|Vehicle.Book(n, key)|] == p;
  }

  // The next refresh loads Bob's session, and his first command carries a number above Ann's by more than
  // one: the vehicle accepts it next.
  lemma HandoverJumps(c: Vehicle.Config, ttl: int, k: int) returns (acts: seq<Action>)
    requires c.behind == 0 && c.checkGap >= 1 && ttl > 0 && ttl >= c.interval && k >= 3
    ensures var log := Run(Start(0, c), acts, c, ttl).n.log;
            && |log| == 2 && log[0].packet.sequence == 1 && log[1].packet.sequence == k
            && log[0].packet.sessionId != log[1].packet.sessionId
  {
    var before := AnnThenBob(c, ttl);
    var w0 := Run(Start(0, c), before, c, ttl);
    var wait := Wait(w0, c.interval, c, ttl);
    var w1 := Run(w0, wait, c, ttl);
    Refresh(w1, c, ttl);
    assert Lookup(w1.g.st.lease, c.limits.vehicleId, c.interval) == Some(BobsLease(0, c, ttl));
    var w2 := Run(w1, REFRESH, c, ttl);
    assert w2.n.v == Verifier(Some(BobsLease(0, c, ttl)), 0, 0);
    var heard := BobHeard(w2, k, c, ttl);
    acts := before + (wait + (REFRESH + heard));
    RunConcat(w1, REFRESH, heard, c, ttl);
    RunConcat(w0, wait, REFRESH + heard, c, ttl);
    RunConcat(Start(0, c), before, wait + (REFRESH + heard), c, ttl);
  }

  lemma AcceptedIsLogged(n: Vehicle.Node, m: Message, identity: string, c: Vehicle.Config)
    requires VerifyPacket(n.v, m, identity, n.now, Vehicle.SignedBy(n.books), c.limits).1.Some?
    ensures m.Json?
    ensures var n' := Vehicle.Apply(n, Vehicle.Deliver(m, identity), c);
            |n'.log| == |n.log| + 1 && n'.log[..|n.log|] == n.log && n'.log[|n.log|].packet == m.packet
  {
    AcceptsExactly(n.v, m, identity, n.now, Vehicle.SignedBy(n.books), c.limits);
  }

  lemma BobHeard(w: World, k: int, c: Vehicle.Config, ttl: int) returns (acts: seq<Action>)
    requires k >= 3 && ttl >= c.interval == w.n.now && w.n.v == Verifier(Some(BobsLease(0, c, ttl)), 0, 0)
    requires w.n.books == map[c.keyOf("s") := [Stop(0)]]
    ensures var n := Run(w, acts, c, ttl).n;
            |n.log| == |w.n.log| + 1 && n.log[..|w.n.log|] == w.n.log && n.log[|w.n.log|].packet == BobsStop(k, w.n.now)
  {
    var p := BobsStop(k, w.n.now);
    var send, hear := Local(Vehicle.Send(c.keyOf("b"), p)), Local(Vehicle.Deliver(Json(p), "operator-bob"));
    SentIsSigned(w.n, c.keyOf("b"), p, c);
    Then(w, [], send, c, ttl);
    acts := [] + [send];
    var w1 := Run(w, acts, c, ttl);
    assert Accepts(w1, Json(p), "operator-bob", c) by {
      AcceptsExactly(w1.n.v, Json(p), "operator-bob", w.n.now, Vehicle.SignedBy(w1.n.books), c.limits);
    }
    AcceptedIsLogged(w1.n, Json(p), "operator-bob", c);
    Then(w, acts, hear, c, ttl);
    acts := acts + [hear];
  }
}
