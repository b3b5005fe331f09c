// The vehicle runtime as an object: packet handling, watchdog and telemetry.
module VehicleRuntime {
  import opened Types
  import opened ControlProtocol
  import opened AuditLog
  import opened VehicleVerifier
  import T = Telemetry

  class EmergencyBrakeController {
    var inEmergency: bool
    var applied: seq<Actuation>  // every actuation handed to the actuators, in order

    constructor ()
      ensures !inEmergency && applied == []
    {
      inEmergency := false;
      applied := [];
    }

    method ApplyControl(val: Actuation)
      modifies this
      ensures !inEmergency && applied == old(applied) + [val]
    {
      if inEmergency {
        inEmergency := false;
      }
      applied := applied + [val];
    }

    method EmergencyBrake()
      modifies this
      ensures inEmergency && applied == old(applied)
    {
      if inEmergency {
        return;
      }
      inEmergency := true;
    }
  }

  datatype Report = Report(p50: int, p99: int, lost: int)

  // One pass of the watchdog loop: the instant of its check, and what arrives while it then sleeps.
  datatype Turn = Turn(at: int, arrivals: seq<Delivery>)

  // Everything the runtime keeps.
  datatype Runtime = Runtime(
    v: Verifier,
    emergency: bool,
    applied: seq<Actuation>,
    meter: T.Meter,
    latencies: seq<int>,
    audit: Audit)

  // What the runtime learns from a message: its number, its age and the actuation it asks for.
  datatype Verdict = Rejected | Accepted(sequence: int, age: int, val: Actuation)

  function VerdictOf(r: Option<Packet>, at: int): Verdict
    requires r.Some? ==> ValidCommand(r.value.command)
  {
    match r
    case None => Rejected
    case Some(p) => Accepted(p.sequence, if at > p.timestamp then at - p.timestamp else 0, ResolveCommand(p.command))
  }

  function OnVerdict(s: Runtime, verdict: Verdict, at: int): Runtime {
    match verdict
    case Rejected => s.(audit := Queue(s.audit, CommandRejected, at))
    case Accepted(sequence, age, val) =>
      s.(emergency := false, applied := s.applied + [val], meter := T.Step(s.meter, T.Got(sequence)),
         latencies := s.latencies + [age],
         audit := if val.brake >= 1.0 then Queue(s.audit, EmergencyStop, at) else s.audit)
  }

  function OnMessage(s: Runtime, d: Delivery, signed: set<Signed>, limits: Limits): (Runtime, Option<Packet>) {
    var (v', r) := VerifyPacket(s.v, d.message, d.identity, d.at, signed, limits);
    (OnVerdict(s.(v := v'), VerdictOf(r, d.at), d.at), r)
  }

  function OnCheck(s: Runtime, at: int, timeout: int): Runtime {
    if at - s.v.lastValid <= timeout then s
    else s.(emergency := true, audit := if s.emergency then s.audit else Queue(s.audit, WatchdogTimeout, at))
  }

  function OnTelemetry(s: Runtime): (Runtime, Option<Report>) {
    if s.latencies == [] && s.meter.lost == 0 then (s, None)
    else
      (s.(latencies := [], meter := T.Step(s.meter, T.Report)),
       Some(if s.latencies == [] then Report(0, 0, s.meter.lost)
            else Report(T.P50(s.latencies), T.P99(s.latencies), s.meter.lost)))
  }

  // The runtime after the arrivals of one sleep.
  function Handle(s: Runtime, ds: seq<Delivery>, signed: set<Signed>, limits: Limits): Runtime {
    if ds == [] then s
    else OnMessage(Handle(s, ds[..|ds| - 1], signed, limits), ds[|ds| - 1], signed, limits).0
  }

  function Watch(s: Runtime, turns: seq<Turn>, timeout: int, signed: set<Signed>, limits: Limits): Runtime {
    if turns == [] then s
    else
      var t := turns[|turns| - 1];
      Handle(OnCheck(Watch(s, turns[..|turns| - 1], timeout, signed, limits), t.at, timeout), t.arrivals, signed, limits)
  }

  predicate Timely(turns: seq<Turn>) {
    && (forall i, j :: 0 <= i < |turns| && 0 <= j < |turns[i].arrivals| ==> turns[i].at <= turns[i].arrivals[j].at)
    && (forall i, j :: 0 <= i < j < |turns| ==> turns[i].at <= turns[j].at)
  }

  lemma {:induction false} HandleResets(s: Runtime, ds: seq<Delivery>, signed: set<Signed>, limits: Limits, at: int, timeout: int)
    requires timeout >= 0 && (s.emergency <==> at - s.v.lastValid > timeout)
    requires forall j :: 0 <= j < |ds| ==> at <= ds[j].at
    ensures var s' := Handle(s, ds, signed, limits); s'.emergency <==> at - s'.v.lastValid > timeout
    decreases |ds|
  {
    if ds != [] {
      HandleResets(s, ds[..|ds| - 1], signed, limits, at, timeout);
      var d := ds[|ds| - 1];
      AcceptsExactly(Handle(s, ds[..|ds| - 1], signed, limits).v, d.message, d.identity, d.at, signed, limits);
    }
  }

  // After any number of loop passes the brake is on exactly if the last check saw more silence than the
  // timeout and nothing was accepted since.
  lemma {:induction false} WatchdogIsExact(s: Runtime, turns: seq<Turn>, timeout: int, signed: set<Signed>, limits: Limits)
    requires timeout >= 0 && turns != [] && Timely(turns) && !s.emergency
    ensures var s' := Watch(s, turns, timeout, signed, limits);
            s'.emergency <==> turns[|turns| - 1].at - s'.v.lastValid > timeout
    decreases |turns|
  {
    var n := |turns| - 1;
    var before, t := turns[..n], turns[n];
    if before != [] {
      WatchdogIsExact(s, before, timeout, signed, limits);
    }
    HandleResets(OnCheck(Watch(s, before, timeout, signed, limits), t.at, timeout), t.arrivals, signed, limits, t.at, timeout);
  }

  class SessionVehicleRuntime {
    const verifier: SessionCommandVerifier
    const brake: EmergencyBrakeController
    var latencies: seq<int>
    var lostCount: int
    var lastSequence: Option<int>
    var auditEvents: seq<AuditEvent>
    var lastAuditAt: map<AuditEvent, int>
    ghost var reported: int

    ghost function State(): Runtime
      reads this, verifier, brake
    {
      Runtime(verifier.State(), brake.inEmergency, brake.applied, T.Meter(lostCount, lastSequence, reported), latencies,
              Audit(auditEvents, lastAuditAt))
    }

    constructor (verifier: SessionCommandVerifier, brake: EmergencyBrakeController)
      ensures this.verifier == verifier && this.brake == brake
      ensures State() == Runtime(verifier.State(), brake.inEmergency, brake.applied, T.Meter(0, None, 0), [], Audit([], map[]))
    {
      this.verifier := verifier;
      this.brake := brake;
      latencies, lostCount, lastSequence, reported := [], 0, None, 0;
      auditEvents, lastAuditAt := [], map[];
    }

    method QueueAuditEvent(event: AuditEvent, now: int)
      modifies this`auditEvents, this`lastAuditAt
      ensures Audit(auditEvents, lastAuditAt) == Queue(old(Audit(auditEvents, lastAuditAt)), event, now)
    {
      var last := if event in lastAuditAt then lastAuditAt[event] else 0;
      if now - last < AUDIT_GAP {
        return;
      }
      lastAuditAt := lastAuditAt[event := now];
      auditEvents := auditEvents + [event];
    }

    method OnDatachannelMessage(d: Delivery, signed: set<Signed>) returns (accepted: Option<Packet>)
      requires verifier.Valid()
      modifies this, verifier, brake
      ensures verifier.Valid() && (State(), accepted) == OnMessage(old(State()), d, signed, verifier.limits)
    {
      accepted := verifier.Verify(d.message, d.identity, d.at, signed);
      assert State() == old(State()).(v := verifier.State());
      React(VerdictOf(accepted, d.at), d.at);
    }

    method React(verdict: Verdict, at: int)
      modifies this, brake
      ensures State() == OnVerdict(old(State()), verdict, at)
    {
      if verdict.Rejected? {
        QueueAuditEvent(CommandRejected, at);
        return;
      }
      NoteSequence(verdict.sequence);
      latencies := latencies + [verdict.age];
      if verdict.val.brake >= 1.0 {
        QueueAuditEvent(EmergencyStop, at);
      }
      brake.ApplyControl(verdict.val);
    }

    method NoteSequence(sequence: int)
      modifies this`lostCount, this`lastSequence
      ensures T.Meter(lostCount, lastSequence, reported) == T.Step(old(T.Meter(lostCount, lastSequence, reported)), T.Got(sequence))
    {
      if lastSequence.Some? && sequence > lastSequence.value + 1 {
        lostCount := lostCount + sequence - lastSequence.value - 1;
      }
      lastSequence := Some(sequence);
    }

    // safety_watchdog, with the messages that arrive during each of its sleeps.
    method SafetyWatchdog(turns: seq<Turn>, timeout: int, signed: set<Signed>)
      requires verifier.Valid()
      modifies this, verifier, brake
      ensures verifier.Valid() && State() == Watch(old(State()), turns, timeout, signed, verifier.limits)
    {
      var i := 0;
      while i < |turns|
        invariant i <= |turns| && verifier.Valid()
        invariant State() == Watch(old(State()), turns[..i], timeout, signed, verifier.limits)
      {
        Check(turns[i].at, timeout);
        Receive(turns[i].arrivals, signed);
        assert turns[..i + 1][..i] == turns[..i];
        i := i + 1;
      }
      assert turns[..i] == turns;
    }

    method Check(at: int, timeout: int)
      modifies this, brake
      ensures State() == OnCheck(old(State()), at, timeout)
    {
      var elapsed := at - verifier.lastValidCmdTime;
      if elapsed > timeout {
        var wasInEmergency := brake.inEmergency;
        brake.EmergencyBrake();
        if !wasInEmergency {
          QueueAuditEvent(WatchdogTimeout, at);
        }
      }
    }

    method Receive(ds: seq<Delivery>, signed: set<Signed>)
      requires verifier.Valid()
      modifies this, verifier, brake
      ensures verifier.Valid() && State() == Handle(old(State()), ds, signed, verifier.limits)
    {
      var i := 0;
      while i < |ds|
        invariant i <= |ds| && verifier.Valid()
        invariant State() == Handle(old(State()), ds[..i], signed, verifier.limits)
      {
        var accepted := OnDatachannelMessage(ds[i], signed);
        assert ds[..i + 1][..i] == ds[..i];
        i := i + 1;
      }
      assert ds[..i] == ds;
    }

    // One pass of telemetry_loop after its sleep; a report that cannot be posted is dropped.
    method TelemetryTick() returns (report: Option<Report>)
      modifies this
      ensures (State(), report) == OnTelemetry(old(State()))
    {
      if latencies == [] && lostCount == 0 {
        return None;
      }
      var p50, p99 := 0, 0;
      if latencies != [] {
        T.SortSorts(latencies);
        var sorted := T.Sort(latencies);
        p50 := sorted[|sorted| / 2];
        var i := 99 * |sorted| / 100;
        p99 := sorted[if i < |sorted| - 1 then i else |sorted| - 1];
      }
      report := Some(Report(p50, p99, lostCount));
      reported := reported + lostCount;
      latencies := [];
      lostCount := 0;
    }
  }
}
