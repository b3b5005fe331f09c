// The runtime object on the vehicle of the transition system: what it applies, reports and audits over
// whole runs.
module RuntimeRuns {
  import opened Types
  import opened AuditLog
  import opened ControlProtocol
  import opened VehicleVerifier
  import opened VehicleRuntime
  import L = SessionLosses
  import N = VehicleNode
  import T = Telemetry

  // A report, and which stretch of the log of accepted commands it is about.
  datatype Sent = Sent(report: Report, from: nat, to: nat)

  datatype Unit = Unit(s: Runtime, n: N.Node, sent: seq<Sent>, since: nat, offers: seq<Offer>)

  datatype Beat = Node(a: N.Action) | Report10s

  function Boot(now: int): Unit {
    Unit(Runtime(Verifier(None, 0, now), false, [], T.Meter(0, None, 0), [], Audit([], map[])), N.Start(now), [], 0, [])
  }

  // What the runtime does at an action of the vehicle; a refresh changes the verifier they share.
  function RuntimeStep(s: Runtime, n: N.Node, a: N.Action, c: N.Config): Runtime {
    match a
    case Deliver(m, identity) => OnMessage(s, Delivery(m, identity, n.now), N.SignedBy(n.books), c.limits).0
    case Check => OnCheck(s, n.now, c.deadMan)
    case _ => s.(v := N.Apply(n, a, c).v)
  }

  // What is to be audited of an action: a rejected message, a remote full brake, a brake of the watchdog.
  function OffersOf(n: N.Node, a: N.Action, c: N.Config): seq<Offer> {
    match a
    case Deliver(_, _) =>
      var log := N.Apply(n, a, c).log;
      if |log| == |n.log| then [Offer(CommandRejected, n.now)]
      else if log != [] && log[|log| - 1].applied.brake >= 1.0 then [Offer(EmergencyStop, n.now)] else []
    case Check => if n.now - n.v.lastValid > c.deadMan && !n.emergency then [Offer(WatchdogTimeout, n.now)] else []
    case _ => []
  }

  function Step(u: Unit, b: Beat, c: N.Config): Unit {
    match b
    case Node(a) => u.(s := RuntimeStep(u.s, u.n, a, c), n := N.Apply(u.n, a, c), offers := u.offers + OffersOf(u.n, a, c))
    case Report10s =>
      var (s', r) := OnTelemetry(u.s);
      if r.None? then u.(s := s')
      else u.(s := s', sent := u.sent + [Sent(r.value, u.since, |u.n.log|)], since := |u.n.log|)
  }

  function Run(u: Unit, beats: seq<Beat>, c: N.Config): Unit {
    if beats == [] then u else Step(Run(u, beats[..|beats| - 1], c), beats[|beats| - 1], c)
  }

  // ---------- what the log says ----------

  function Actuations(log: seq<N.Accept>): seq<Actuation> {
    if log == [] then [] else Actuations(log[..|log| - 1]) + [log[|log| - 1].applied]
  }

  function Age(e: N.Accept): nat {
    if e.at > e.packet.timestamp then e.at - e.packet.timestamp else 0
  }

  function Ages(log: seq<N.Accept>): seq<int> {
    if log == [] then [] else Ages(log[..|log| - 1]) + [Age(log[|log| - 1])]
  }

  function TotalLost(sent: seq<Sent>): int {
    if sent == [] then 0 else TotalLost(sent[..|sent| - 1]) + sent[|sent| - 1].report.lost
  }

  // p50 and p99 of samples: the least sample with more than half, and more than 99%, of them at most it.
  ghost predicate ReportsAges(r: Report, ages: seq<int>) {
    if ages == [] then r.p50 == 0 && r.p99 == 0
    else
      && r.p50 in ages && r.p99 in ages && r.p50 <= r.p99
      && 2 * T.CountAtMost(ages, r.p50) > |ages| && 100 * T.CountAtMost(ages, r.p99) > 99 * |ages|
      && (forall y :: 2 * T.CountAtMost(ages, y) > |ages| ==> r.p50 <= y)
      && (forall y :: 100 * T.CountAtMost(ages, y) > 99 * |ages| ==> r.p99 <= y)
  }

  // The reports cover the log one after the other, up to `since`.
  predicate Contiguous(sent: seq<Sent>, since: nat) {
    && (if sent == [] then since == 0 else sent[0].from == 0 && sent[|sent| - 1].to == since)
    && (forall i :: 0 <= i < |sent| ==> sent[i].from <= sent[i].to <= since)
    && (forall i :: 0 < i < |sent| ==> sent[i].from == sent[i - 1].to)
  }

  ghost predicate ReportsRight(sent: seq<Sent>, log: seq<N.Accept>) {
    forall i :: 0 <= i < |sent| ==>
      sent[i].from <= sent[i].to <= |log| && ReportsAges(sent[i].report, Ages(log[sent[i].from..sent[i].to]))
  }

  ghost predicate MeterRight(m: T.Meter, sent: seq<Sent>, log: seq<N.Accept>) {
    && m.lost + TotalLost(sent) == T.Jumps(L.Numbers(log)) && m.lost >= 0
    && m.last == if log == [] then None else Some(log[|log| - 1].packet.sequence)
  }

  predicate SamplesRight(latencies: seq<int>, since: nat, log: seq<N.Accept>) {
    since <= |log| && latencies == Ages(log[since..])
  }

  // The runtime shows the vehicle: the same verifier and brake; applied are exactly the logged actuations,
  // in order; latencies are the ages of what was accepted since the last report; losses are right; and the
  // audit queue is what was offered to it.
  ghost predicate Shows(u: Unit) {
    && u.s.v == u.n.v && u.s.emergency == u.n.emergency
    && u.s.applied == Actuations(u.n.log)
    && SamplesRight(u.s.latencies, u.since, u.n.log)
    && MeterRight(u.s.meter, u.sent, u.n.log)
    && Contiguous(u.sent, u.since) && ReportsRight(u.sent, u.n.log)
    && u.s.audit == Offered(Audit([], map[]), u.offers)
  }

  // ---------- one message ----------

  lemma VerdictMeans(p: Packet, at: int)
    requires ValidCommand(p.command)
    ensures VerdictOf(Some(p), at) ==
            Accepted(p.sequence, if at > p.timestamp then at - p.timestamp else 0, ResolveCommand(p.command))
    ensures VerdictOf(None, at) == Rejected
  {
  }

  lemma OnVerdictMeans(s: Runtime, x: Verdict, at: int)
    ensures var s' := OnVerdict(s, x, at);
            && s'.v == s.v
            && (x.Rejected? ==> s' == s.(audit := Queue(s.audit, CommandRejected, at)))
            && (x.Accepted? ==>
                  && !s'.emergency && s'.applied == s.applied + [x.val]
                  && s'.meter == T.Step(s.meter, T.Got(x.sequence)) && s'.latencies == s.latencies + [x.age]
                  && s'.audit == if x.val.brake >= 1.0 then Queue(s.audit, EmergencyStop, at) else s.audit)
  {
  }

  // What a message does to the runtime, in terms of the packet.
  lemma OnMessageMeans(s: Runtime, d: Delivery, signed: set<Signed>, limits: Limits)
    ensures var (s', r) := OnMessage(s, d, signed, limits);
            && (s'.v, r) == VerifyPacket(s.v, d.message, d.identity, d.at, signed, limits)
            && (r.None? ==> s' == s.(v := s'.v, audit := Queue(s.audit, CommandRejected, d.at)))
            && (r.Some? ==> ValidCommand(r.value.command) && AppliedTo(s, s', r.value, ResolveCommand(r.value.command), d.at))
  {
    var (v', r) := VerifyPacket(s.v, d.message, d.identity, d.at, signed, limits);
    OnVerdictMeans(s.(v := v'), VerdictOf(r, d.at), d.at);
    if r.Some? { VerdictMeans(r.value, d.at); }
  }

  // An accepted packet ends the emergency, hands one actuation to the actuators, counts its number and its
  // age, and offers a full brake for audit.
  predicate AppliedTo(s: Runtime, s': Runtime, p: Packet, val: Actuation, at: int) {
    && !s'.emergency && s'.applied == s.applied + [val]
    && s'.meter == T.Step(s.meter, T.Got(p.sequence))
    && s'.latencies == s.latencies + [if at > p.timestamp then at - p.timestamp else 0]
    && s'.audit == if val.brake >= 1.0 then Queue(s.audit, EmergencyStop, at) else s.audit
  }

  lemma OneMoreEntry(log: seq<N.Accept>, e: N.Accept)
    ensures Actuations(log + [e]) == Actuations(log) + [e.applied]
    ensures Ages(log + [e]) == Ages(log) + [Age(e)]
    ensures L.Numbers(log + [e]) == L.Numbers(log) + [e.packet.sequence]
  {
    assert (log + [e])[..|log|] == log;
  }

  lemma OneMoreSample(latencies: seq<int>, since: nat, log: seq<N.Accept>, e: N.Accept)
    requires SamplesRight(latencies, since, log)
    ensures SamplesRight(latencies + [Age(e)], since, log + [e])
  {
    assert (log + [e])[since..] == log[since..] + [e];
    OneMoreEntry(log[since..], e);
  }

  lemma OneMoreNumber(m: T.Meter, sent: seq<Sent>, log: seq<N.Accept>, e: N.Accept)
    requires MeterRight(m, sent, log)
    ensures MeterRight(T.Step(m, T.Got(e.packet.sequence)), sent, log + [e])
  {
    OneMoreEntry(log, e);
    var s := L.Numbers(log);
    assert (s + [e.packet.sequence])[..|s|] == s;
  }

  lemma OlderReportsStand(sent: seq<Sent>, log: seq<N.Accept>, e: N.Accept)
    requires ReportsRight(sent, log)
    ensures ReportsRight(sent, log + [e])
  {
    forall i | 0 <= i < |sent|
      ensures sent[i].from <= sent[i].to <= |log| && ReportsAges(sent[i].report, Ages((log + [e])[sent[i].from..sent[i].to]))
    {
      assert (log + [e])[sent[i].from..sent[i].to] == log[sent[i].from..sent[i].to];
    }
  }

  lemma OneMoreOffer(offers: seq<Offer>, o: Offer)
    ensures Offered(Audit([], map[]), offers + [o]) == Queue(Offered(Audit([], map[]), offers), o.event, o.at)
    ensures offers + [] == offers
  {
    assert (offers + [o])[..|offers|] == offers;
  }

  // A delivery to the vehicle logs a command if and only if the verifier accepts it.
  lemma DeliveryLogs(n: N.Node, m: Message, identity: string, c: N.Config)
    ensures var (v', r) := VerifyPacket(n.v, m, identity, n.now, N.SignedBy(n.books), c.limits);
            var n' := N.Apply(n, N.Deliver(m, identity), c);
            && n'.v == v' && n'.emergency == (n.emergency && r.None?)
            && (r.None? ==> n'.log == n.log)
            && (r.Some? ==>
                  && n.v.session.Some? && ValidCommand(r.value.command)
                  && n'.log == n.log + [N.EntryFor(n, r.value)])
  {
    AcceptsExactly(n.v, m, identity, n.now, N.SignedBy(n.books), c.limits);
  }

  // What a step on the vehicle's side leaves as it is.
  predicate SameReports(u: Unit, u': Unit) {
    u'.sent == u.sent && u'.since == u.since
  }

  lemma QuietShows(u: Unit, u': Unit)
    requires Shows(u) && SameReports(u, u') && u'.n.log == u.n.log
    requires u'.s.v == u'.n.v && u'.s.emergency == u'.n.emergency
    requires u'.s.applied == u.s.applied && u'.s.meter == u.s.meter && u'.s.latencies == u.s.latencies
    requires u'.s.audit == Offered(Audit([], map[]), u'.offers)
    ensures Shows(u')
  {
  }

  lemma RejectionShows(u: Unit, m: Message, identity: string, c: N.Config)
    requires Shows(u) && VerifyPacket(u.n.v, m, identity, u.n.now, N.SignedBy(u.n.books), c.limits).1.None?
    ensures Shows(Step(u, Node(N.Deliver(m, identity)), c))
  {
    DeliveryLogs(u.n, m, identity, c);
    OnMessageMeans(u.s, Delivery(m, identity, u.n.now), N.SignedBy(u.n.books), c.limits);
    OneMoreOffer(u.offers, Offer(CommandRejected, u.n.now));
    QuietShows(u, Step(u, Node(N.Deliver(m, identity)), c));
  }

  lemma EntryShows(u: Unit, e: N.Accept, u': Unit)
    requires Shows(u) && SameReports(u, u')
    requires u'.n.log == u.n.log + [e] && u'.s.v == u'.n.v && u'.s.emergency == u'.n.emergency
    requires u'.s.applied == u.s.applied + [e.applied] && u'.s.meter == T.Step(u.s.meter, T.Got(e.packet.sequence))
    requires u'.s.latencies == u.s.latencies + [Age(e)]
    requires u'.s.audit == Offered(Audit([], map[]), u'.offers)
    ensures Shows(u')
  {
    OneMoreEntry(u.n.log, e);
    OneMoreSample(u.s.latencies, u.since, u.n.log, e);
    OneMoreNumber(u.s.meter, u.sent, u.n.log, e);
    OlderReportsStand(u.sent, u.n.log, e);
  }

  lemma AcceptanceShows(u: Unit, m: Message, identity: string, c: N.Config, p: Packet)
    requires Shows(u) && VerifyPacket(u.n.v, m, identity, u.n.now, N.SignedBy(u.n.books), c.limits).1 == Some(p)
    ensures Shows(Step(u, Node(N.Deliver(m, identity)), c))
  {
    DeliveryLogs(u.n, m, identity, c);
    OnMessageMeans(u.s, Delivery(m, identity, u.n.now), N.SignedBy(u.n.books), c.limits);
    var e, u' := N.EntryFor(u.n, p), Step(u, Node(N.Deliver(m, identity)), c);
    AcceptanceOffers(u.n, m, identity, c, p, e);
    OneMoreOffer(u.offers, Offer(EmergencyStop, u.n.now));
    EntryShows(u, e, u');
  }

  lemma AcceptanceOffers(n: N.Node, m: Message, identity: string, c: N.Config, p: Packet, e: N.Accept)
    requires VerifyPacket(n.v, m, identity, n.now, N.SignedBy(n.books), c.limits).1 == Some(p)
    requires n.v.session.Some? && ValidCommand(p.command) && e == N.EntryFor(n, p)
    ensures OffersOf(n, N.Deliver(m, identity), c) == if e.applied.brake >= 1.0 then [Offer(EmergencyStop, n.now)] else []
  {
    DeliveryLogs(n, m, identity, c);
  }

  lemma CheckShows(u: Unit, c: N.Config)
    requires Shows(u)
    ensures Shows(Step(u, Node(N.Check), c))
  {
    OneMoreOffer(u.offers, Offer(WatchdogTimeout, u.n.now));
    QuietShows(u, Step(u, Node(N.Check), c));
  }

  lemma OtherLeavesLog(n: N.Node, a: N.Action, c: N.Config)
    requires !a.Deliver? && !a.Check?
    ensures N.Apply(n, a, c).log == n.log && N.Apply(n, a, c).emergency == n.emergency
  {
  }

  // Time, sending and the refresher change nothing the runtime keeps but the verifier.
  lemma OtherShows(u: Unit, a: N.Action, c: N.Config)
    requires Shows(u) && !a.Deliver? && !a.Check?
    ensures Shows(Step(u, Node(a), c))
  {
    OtherLeavesLog(u.n, a, c);
    OneMoreOffer(u.offers, Offer(CommandRejected, 0));
    QuietShows(u, Step(u, Node(a), c));
  }

  // ---------- one report ----------

  // What a report says and resets.
  lemma OnTelemetryMeans(s: Runtime)
    ensures var (s', r) := OnTelemetry(s);
            && (r.None? <==> s.latencies == [] && s.meter.lost == 0)
            && (r.None? ==> s' == s)
            && (r.Some? ==>
                  && r.value.lost == s.meter.lost && ReportsAges(r.value, s.latencies)
                  && s' == s.(latencies := [], meter := T.Step(s.meter, T.Report)))
  {
    if s.latencies != [] {
      T.PercentilesAreRight(s.latencies);
      forall y ensures 2 * T.CountAtMost(s.latencies, y) > |s.latencies| ==> T.P50(s.latencies) <= y { T.PercentilesAreLeast(s.latencies, y); }
      forall y ensures 100 * T.CountAtMost(s.latencies, y) > 99 * |s.latencies| ==> T.P99(s.latencies) <= y { T.PercentilesAreLeast(s.latencies, y); }
    }
  }

  lemma ReportedSince(sent: seq<Sent>, since: nat, log: seq<N.Accept>, x: Sent)
    requires ReportsRight(sent, log) && x.from == since <= |log| == x.to && ReportsAges(x.report, Ages(log[since..]))
    ensures ReportsRight(sent + [x], log)
  {
    assert log[since..|log|] == log[since..];
    forall i | 0 <= i < |sent + [x]|
      ensures var y := (sent + [x])[i]; y.from <= y.to <= |log| && ReportsAges(y.report, Ages(log[y.from..y.to]))
    {
      assert i < |sent| ==> (sent + [x])[i] == sent[i];
    }
  }

  lemma StillContiguous(sent: seq<Sent>, since: nat, x: Sent)
    requires Contiguous(sent, since) && x.from == since <= x.to
    ensures Contiguous(sent + [x], x.to)
  {
  }

  lemma ReportedLoss(m: T.Meter, sent: seq<Sent>, log: seq<N.Accept>, x: Sent)
    requires MeterRight(m, sent, log) && x.report.lost == m.lost
    ensures MeterRight(T.Step(m, T.Report), sent + [x], log)
  {
    assert (sent + [x])[..|sent|] == sent;
  }

  lemma ReportShows(u: Unit, c: N.Config)
    requires Shows(u)
    ensures Shows(Step(u, Report10s, c))
  {
    OnTelemetryMeans(u.s);
    var r := OnTelemetry(u.s).1;
    if r.Some? {
      var x := Sent(r.value, u.since, |u.n.log|);
      ReportedSince(u.sent, u.since, u.n.log, x);
      StillContiguous(u.sent, u.since, x);
      ReportedLoss(u.s.meter, u.sent, u.n.log, x);
      assert u.n.log[|u.n.log|..] == [];
    }
  }

  // ---------- whole runs ----------

  lemma BeatShows(u: Unit, b: Beat, c: N.Config)
    requires Shows(u)
    ensures Shows(Step(u, b, c))
  {
    if b.Report10s? {
      ReportShows(u, c);
    } else if b.a.Deliver? {
      var r := VerifyPacket(u.n.v, b.a.m, b.a.identity, u.n.now, N.SignedBy(u.n.books), c.limits).1;
      if r.Some? {
        AcceptanceShows(u, b.a.m, b.a.identity, c, r.value);
      } else {
        RejectionShows(u, b.a.m, b.a.identity, c);
      }
    } else if b.a.Check? {
      CheckShows(u, c);
    } else {
      OtherShows(u, b.a, c);
    }
  }

  lemma {:induction false} RunKeepsShowing(u: Unit, beats: seq<Beat>, c: N.Config)
    requires Shows(u)
    ensures Shows(Run(u, beats, c))
    decreases |beats|
  {
    if beats != [] {
      RunKeepsShowing(u, beats[..|beats| - 1], c);
      BeatShows(Run(u, beats[..|beats| - 1], c), beats[|beats| - 1], c);
    }
  }

  // In every run of the vehicle, with reports at any instants: the runtime applies exactly the actuations
  // of the accepted commands, in order; each report's percentiles are those of the ages of the commands
  // accepted since the report before, and its losses with all others' and those still pending are the
  // jumps; and exactly the rejected messages, full brakes and watchdog brakes are offered for audit.
  lemma RuntimeShowsVehicle(start: int, beats: seq<Beat>, c: N.Config)
    ensures Shows(Run(Boot(start), beats, c))
  {
    RunKeepsShowing(Boot(start), beats, c);
  }

  // ---------- the loop of the runtime, and the vehicle it drives ----------

  type Arrival = (Unit, Delivery) -> Unit
  type Checking = (Unit, int) -> Unit

  function Wait(u: Unit, at: int): Beat {
    Node(N.Tick(if u.n.now <= at then at - u.n.now else 0))
  }

  // Time passes until a message is delivered, or until the watchdog checks.
  function Arrive(c: N.Config): Arrival {
    (u: Unit, d: Delivery) => Step(Step(u, Wait(u, d.at), c), Node(N.Deliver(d.message, d.identity)), c)
  }

  function CheckAt(c: N.Config): Checking {
    (u: Unit, at: int) => Step(Step(u, Wait(u, at), c), Node(N.Check), c)
  }

  function Hear(arrive: Arrival, u: Unit, ds: seq<Delivery>): Unit {
    if ds == [] then u else arrive(Hear(arrive, u, ds[..|ds| - 1]), ds[|ds| - 1])
  }

  // The same checks and deliveries as in Watch, at the same instants and in the same order.
  function Through(arrive: Arrival, check: Checking, u: Unit, turns: seq<Turn>): Unit {
    if turns == [] then u
    else
      var t := turns[|turns| - 1];
      Hear(arrive, check(Through(arrive, check, u, turns[..|turns| - 1]), t.at), t.arrivals)
  }

  // The refresher sleeps until `at`, and the next check is not due before it either.
  predicate Awake(n: N.Node, lastCheck: int, at: int, c: N.Config) {
    n.phase.Sleeping? && at <= n.phase.wake + c.slack && at <= lastCheck + c.checkGap
  }

  predicate HearsInTime(n: N.Node, now: int, lastCheck: int, ds: seq<Delivery>, c: N.Config) {
    ds == [] ||
    (var before, d := ds[..|ds| - 1], ds[|ds| - 1];
     HearsInTime(n, now, lastCheck, before, c) && LastArrival(now, before) <= d.at && Awake(n, lastCheck, d.at, c))
  }

  function LastArrival(now: int, ds: seq<Delivery>): int {
    if ds == [] then now else ds[|ds| - 1].at
  }

  // Nothing in these turns is earlier than what comes before it, checks are no further apart than the
  // vehicle allows, and the refresher sleeps throughout.
  predicate TurnsInTime(n: N.Node, turns: seq<Turn>, c: N.Config) {
    turns == [] ||
    (var before, t := turns[..|turns| - 1], turns[|turns| - 1];
     && TurnsInTime(n, before, c) && EndOfTurns(n.now, before) <= t.at && Awake(n, LastCheck(n.lastCheck, before), t.at, c)
     && HearsInTime(n, t.at, t.at, t.arrivals, c))
  }

  function EndOfTurns(now: int, turns: seq<Turn>): int {
    if turns == [] then now else LastArrival(turns[|turns| - 1].at, turns[|turns| - 1].arrivals)
  }

  function LastCheck(lastCheck: int, turns: seq<Turn>): int {
    if turns == [] then lastCheck else turns[|turns| - 1].at
  }

  // What the loop sees of the unit: the runtime, the clock and the last check, while the refresher sleeps.
  datatype Seen = Seen(s: Runtime, now: int, lastCheck: int, v: Verifier, phase: N.Phase, books: map<string, seq<Packet>>)

  function See(u: Unit): Seen {
    Seen(u.s, u.n.now, u.n.lastCheck, u.n.v, u.n.phase, u.n.books)
  }

  function Later(u: Unit, s: Runtime, now: int, lastCheck: int): Seen {
    Seen(s, now, lastCheck, s.v, u.n.phase, u.n.books)
  }

  predicate Prepared(u: Unit, at: int, c: N.Config) {
    u.s.v == u.n.v && u.n.now <= at && Awake(u.n, u.n.lastCheck, at, c)
  }

  ghost predicate Arrives(arrive: Arrival, c: N.Config) {
    forall u: Unit, d: Delivery :: Prepared(u, d.at, c) ==>
      See(arrive(u, d)) == Later(u, OnMessage(u.s, d, N.SignedBy(u.n.books), c.limits).0, d.at, u.n.lastCheck)
  }

  ghost predicate Checks(check: Checking, c: N.Config) {
    forall u: Unit, at: int :: Prepared(u, at, c) ==> See(check(u, at)) == Later(u, OnCheck(u.s, at, c.deadMan), at, at)
  }

  lemma TimePasses(u: Unit, at: int, c: N.Config)
    requires Prepared(u, at, c)
    ensures Step(u, Wait(u, at), c) == u.(n := u.n.(now := at))
  {
  }

  lemma DeliveryLeavesTimes(n: N.Node, m: Message, identity: string, c: N.Config)
    ensures var n' := N.Apply(n, N.Deliver(m, identity), c);
            && n'.now == n.now && n'.phase == n.phase && n'.lastCheck == n.lastCheck && n'.books == n.books
            && n'.v == VerifyPacket(n.v, m, identity, n.now, N.SignedBy(n.books), c.limits).0
  {
  }

  lemma ArrivalIsAMessage(u: Unit, d: Delivery, c: N.Config)
    requires Prepared(u, d.at, c)
    ensures See(Arrive(c)(u, d)) == Later(u, OnMessage(u.s, d, N.SignedBy(u.n.books), c.limits).0, d.at, u.n.lastCheck)
  {
    TimePasses(u, d.at, c);
    DeliveryLeavesTimes(u.n.(now := d.at), d.message, d.identity, c);
    OnMessageMeans(u.s, d, N.SignedBy(u.n.books), c.limits);
  }

  lemma CheckIsOnCheck(u: Unit, at: int, c: N.Config)
    requires Prepared(u, at, c)
    ensures See(CheckAt(c)(u, at)) == Later(u, OnCheck(u.s, at, c.deadMan), at, at)
  {
    TimePasses(u, at, c);
  }

  lemma StepsAreSound(c: N.Config)
    ensures Arrives(Arrive(c), c) && Checks(CheckAt(c), c)
  {
    forall u: Unit, d: Delivery | Prepared(u, d.at, c)
      ensures See(Arrive(c)(u, d)) == Later(u, OnMessage(u.s, d, N.SignedBy(u.n.books), c.limits).0, d.at, u.n.lastCheck)
    {
      ArrivalIsAMessage(u, d, c);
    }
    forall u: Unit, at: int | Prepared(u, at, c)
      ensures See(CheckAt(c)(u, at)) == Later(u, OnCheck(u.s, at, c.deadMan), at, at)
    {
      CheckIsOnCheck(u, at, c);
    }
  }

  lemma {:induction false} HandleIsHeard(arrive: Arrival, u: Unit, ds: seq<Delivery>, c: N.Config)
    requires Arrives(arrive, c) && u.s.v == u.n.v && HearsInTime(u.n, u.n.now, u.n.lastCheck, ds, c)
    ensures See(Hear(arrive, u, ds)) ==
            Later(u, Handle(u.s, ds, N.SignedBy(u.n.books), c.limits), LastArrival(u.n.now, ds), u.n.lastCheck)
    decreases |ds|
  {
    if ds != [] {
      HandleIsHeard(arrive, u, ds[..|ds| - 1], c);
      assert Prepared(Hear(arrive, u, ds[..|ds| - 1]), ds[|ds| - 1].at, c);
    }
  }

  // One turn, begun by the unit u1.
  lemma TurnIsHeard(arrive: Arrival, check: Checking, u: Unit, u1: Unit, s: Runtime, now: int, lastCheck: int, t: Turn, c: N.Config)
    requires Arrives(arrive, c) && Checks(check, c) && See(u1) == Later(u, s, now, lastCheck)
    requires now <= t.at && Awake(u.n, lastCheck, t.at, c) && HearsInTime(u.n, t.at, t.at, t.arrivals, c)
    ensures See(Hear(arrive, check(u1, t.at), t.arrivals)) ==
            Later(u, Handle(OnCheck(s, t.at, c.deadMan), t.arrivals, N.SignedBy(u.n.books), c.limits),
                  LastArrival(t.at, t.arrivals), t.at)
  {
    assert Prepared(u1, t.at, c);
    var u2 := check(u1, t.at);
    InTimeForBoth(u.n, u2.n, t.at, t.at, t.arrivals, c);
    HandleIsHeard(arrive, u2, t.arrivals, c);
  }

  lemma {:induction false} InTimeForBoth(n: N.Node, m: N.Node, now: int, lastCheck: int, ds: seq<Delivery>, c: N.Config)
    requires n.phase == m.phase && HearsInTime(n, now, lastCheck, ds, c)
    ensures HearsInTime(m, now, lastCheck, ds, c)
    decreases |ds|
  {
    if ds != [] { InTimeForBoth(n, m, now, lastCheck, ds[..|ds| - 1], c); }
  }

  lemma {:induction false} WatchIsThrough(arrive: Arrival, check: Checking, u: Unit, turns: seq<Turn>, c: N.Config)
    requires Arrives(arrive, c) && Checks(check, c) && u.s.v == u.n.v && TurnsInTime(u.n, turns, c)
    ensures See(Through(arrive, check, u, turns)) ==
            Later(u, Watch(u.s, turns, c.deadMan, N.SignedBy(u.n.books), c.limits), EndOfTurns(u.n.now, turns),
                  LastCheck(u.n.lastCheck, turns))
    decreases |turns|
  {
    if turns != [] {
      var before := turns[..|turns| - 1];
      WatchIsThrough(arrive, check, u, before, c);
      TurnIsHeard(arrive, check, u, Through(arrive, check, u, before),
                  Watch(u.s, before, c.deadMan, N.SignedBy(u.n.books), c.limits), EndOfTurns(u.n.now, before),
                  LastCheck(u.n.lastCheck, before), turns[|turns| - 1], c);
    }
  }

  lemma {:induction false} HearShows(u: Unit, ds: seq<Delivery>, c: N.Config)
    requires Shows(u)
    ensures Shows(Hear(Arrive(c), u, ds))
    decreases |ds|
  {
    if ds != [] {
      var d, u1 := ds[|ds| - 1], Hear(Arrive(c), u, ds[..|ds| - 1]);
      HearShows(u, ds[..|ds| - 1], c);
      ArriveShows(u1, d, c);
    }
  }

  lemma ArriveShows(u: Unit, d: Delivery, c: N.Config)
    requires Shows(u)
    ensures Shows(Arrive(c)(u, d))
  {
    BeatShows(u, Wait(u, d.at), c);
    BeatShows(Step(u, Wait(u, d.at), c), Node(N.Deliver(d.message, d.identity)), c);
  }

  lemma CheckAtShows(u: Unit, at: int, c: N.Config)
    requires Shows(u)
    ensures Shows(CheckAt(c)(u, at))
  {
    BeatShows(u, Wait(u, at), c);
    BeatShows(Step(u, Wait(u, at), c), Node(N.Check), c);
  }

  lemma {:induction false} ThroughShows(u: Unit, turns: seq<Turn>, c: N.Config)
    requires Shows(u)
    ensures Shows(Through(Arrive(c), CheckAt(c), u, turns))
    decreases |turns|
  {
    if turns != [] {
      var t, u1 := turns[|turns| - 1], Through(Arrive(c), CheckAt(c), u, turns[..|turns| - 1]);
      ThroughShows(u, turns[..|turns| - 1], c);
      CheckAtShows(u1, t.at, c);
      HearShows(CheckAt(c)(u1, t.at), t.arrivals, c);
    }
  }

  // The watchdog loop with the messages that arrive in its sleeps drives the vehicle through the same
  // checks and deliveries, at the same instants and in the same order: the runtime that the loop leaves is
  // the one that shows the vehicle then, with all that Shows says of it.
  lemma WatchShowsVehicle(u: Unit, turns: seq<Turn>, c: N.Config)
    requires Shows(u) && TurnsInTime(u.n, turns, c)
    ensures var u' := Through(Arrive(c), CheckAt(c), u, turns);
            && u'.s == Watch(u.s, turns, c.deadMan, N.SignedBy(u.n.books), c.limits) && Shows(u')
            && u'.n.now == EndOfTurns(u.n.now, turns)
  {
    StepsAreSound(c);
    WatchIsThrough(Arrive(c), CheckAt(c), u, turns, c);
    ThroughShows(u, turns, c);
  }
}
