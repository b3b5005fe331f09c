// Where the video record and the lease part ways: control without video, and video without control.
module VideoAfterControl {
  import opened Types
  import opened ControlLease
  import opened VideoRecords
  import opened ControlVideo
  import Gateway = ControlSystem

  lemma Then(w: Handlers, acts: seq<Action>, a: Action, grace: nat, ttl: int)
    ensures Run(w, acts + [a], grace, ttl) == Apply(Run(w, acts, grace, ttl), a, grace, ttl)
  {
    RunConcat(w, acts, [a], grace, ttl);
    assert [a][1..] == [];
  }

  function Booked(at: int, ttl: int): ControlSession {
    ControlSession("s", "car", "ann", "key", SessionStatus.Active, at, at + ttl)
  }

  // Ann's lease lasts until `deadline`, and her SetController is done.
  ghost predicate Leasing(w: Handlers, deadline: int) {
    && w.stage == map["s" := Open] && Gateway.Idle(w.g, 1) && w.g.now <= deadline
    && "car" in w.g.st.lease && "s" in w.g.st.index
    && w.g.st.lease["car"].deadline == deadline && w.g.st.index["s"] == Entry("car", deadline)
    && w.g.st.lease["car"].value == Booked(0, 0).(createdAt := w.g.st.lease["car"].value.createdAt,
                                                  expiresAt := w.g.st.lease["car"].value.expiresAt)
    && "s" in w.g.past.issued && w.g.past.issued["s"].vehicleId == "car"
    && "s" in w.g.past.rank && "s" !in w.g.past.released
  }

  // Her video record was last saved at `saved`, by that SetController.
  predicate Showing(st: Store, saved: int) {
    && "car" in st.video && st.video["car"].deadline == saved + DAY && IsHeld(st.video["car"].value)
    && st.video["car"].value.controller == "s" && st.video["car"].value.vehicleId == "car"
  }

  // Her lease is granted, and SetController is still to come.
  lemma LeaseGranted(start: int, grace: nat, ttl: int) returns (acts: seq<Action>)
    requires start > 0 && ttl > 0
    ensures var r, w := Booked(start, ttl), Run(Start(start), acts, grace, ttl);
            && w.stage == map["s" := Setting] && w.g.clients == map[0 := Done(Ok)] && w.g.now == start
            && w.g.st == EMPTY_STORE.(lease := map["car" := Entry(r, start + ttl)], index := map["s" := Entry("car", start + ttl)])
            && w.g.past == Gateway.History(map["s" := r], map["s" := 0], 1, map[])
  {
    var r := Booked(start, ttl);
    Then(Start(start), [], Control(Gateway.CallAcquire(0, r)), grace, ttl);
    acts := [] + [Control(Gateway.CallAcquire(0, r))];
    assert Run(Start(start), acts, grace, ttl).g.clients == map[0 := Acquiring(r)];
    Then(Start(start), acts, Control(Gateway.Advance(0)), grace, ttl);
    acts := acts + [Control(Gateway.Advance(0))];
  }

  lemma FirstHolding(start: int, uuid: string, grace: nat, ttl: int) returns (acts: seq<Action>)
    requires start > 0 && ttl > 0
    ensures var w := Run(Start(start), acts, grace, ttl);
            Leasing(w, start + ttl) && Showing(w.g.st, start) && w.g.now == start && w.g.clients == map[0 := Done(Ok)]
  {
    acts := LeaseGranted(start, grace, ttl);
    Then(Start(start), acts, SetController("s", uuid), grace, ttl);
    acts := acts + [SetController("s", uuid)];
  }

  const STEP := Control(Gateway.Advance(1))

  // Within her lease Ann asks for a renewal, and both reads find it.
  lemma RenewalReads(w: Handlers, deadline: int, d: nat, grace: nat, ttl: int) returns (acts: seq<Action>)
    requires Leasing(w, deadline) && w.g.now + d <= deadline
    ensures Run(w, acts, grace, ttl) ==
              Handlers(w.g.(now := w.g.now + d, clients := w.g.clients[1 := ReadingClock(Renew("s", "ann"), "car")]), w.stage)
  {
    var req, tick := Renew("s", "ann"), Control(Gateway.Tick(d));
    Then(w, [], tick, grace, ttl);
    acts := [] + [tick];
    Then(w, acts, Control(Gateway.Call(1, req)), grace, ttl);
    acts := acts + [Control(Gateway.Call(1, req))];
    var g := w.g.(now := w.g.now + d);
    assert Run(w, acts, grace, ttl) == Handlers(g.(clients := w.g.clients[1 := FindingVehicle(req)]), w.stage);
    Then(w, acts, STEP, grace, ttl);
    acts := acts + [STEP];
    assert Run(w, acts, grace, ttl) == Handlers(g.(clients := w.g.clients[1 := ReadingLease(req, "car")]), w.stage);
    Then(w, acts, STEP, grace, ttl);
    acts := acts + [STEP];
  }

  // ... and its script is granted.
  lemma RenewOnce(w: Handlers, deadline: int, d: nat, grace: nat, ttl: int) returns (acts: seq<Action>)
    requires Leasing(w, deadline) && w.g.now + d <= deadline && ttl > 0
    ensures var w' := Run(w, acts, grace, ttl);
            Leasing(w', w.g.now + d + ttl) && w'.g.now == w.g.now + d && w'.g.st.video == w.g.st.video
  {
    acts := RenewalReads(w, deadline, d, grace, ttl);
    var w1 := Run(w, acts, grace, ttl);
    Then(w, acts, STEP, grace, ttl);
    acts := acts + [STEP];
    var w2 := Run(w, acts, grace, ttl);
    assert w2 == w1.(g := w1.g.(clients := w1.g.clients[1 := RunningScript(Renew("s", "ann"), "car", w1.g.now + ttl)]));
    Then(w, acts, STEP, grace, ttl);
    acts := acts + [STEP];
    ScriptRenews(w2, deadline, grace, ttl);
  }

  lemma ScriptRenews(w: Handlers, deadline: int, grace: nat, ttl: int)
    requires Leasing(w.(g := w.g.(clients := map[])), deadline) && ttl > 0
    requires 1 in w.g.clients && w.g.clients[1] == RunningScript(Renew("s", "ann"), "car", w.g.now + ttl)
    ensures var w' := Apply(w, STEP, grace, ttl);
            Leasing(w', w.g.now + ttl) && w'.g.now == w.g.now && w'.g.st.video == w.g.st.video
  {
  }

  // She renews whenever her lease is about to end, up to an instant of her choice.
  lemma {:induction false} KeepRenewing(w: Handlers, deadline: int, until: int, grace: nat, ttl: int)
    returns (acts: seq<Action>, end: int)
    requires Leasing(w, deadline) && ttl > 0 && w.g.now <= until
    ensures var w' := Run(w, acts, grace, ttl);
            Leasing(w', end) && w'.g.now == until && w'.g.st.video == w.g.st.video
    decreases until - w.g.now, if deadline == w.g.now then 1 else 0
  {
    if w.g.now == until {
      acts, end := [], deadline;
    } else {
      var d := if until <= deadline then until - w.g.now else deadline - w.g.now;
      var first := RenewOnce(w, deadline, d, grace, ttl);
      var rest;
      rest, end := KeepRenewing(Run(w, first, grace, ttl), w.g.now + d + ttl, until, grace, ttl);
      acts := first + rest;
      RunConcat(w, first, rest, grace, ttl);
    }
  }

  // For every lease time: Ann keeps her lease by renewing it for a day, nothing saves the video record in
  // that time, and it lapses under her.
  lemma LapsesUnderControl(start: int, uuid: string, grace: nat, ttl: int) returns (acts: seq<Action>, deadline: int)
    requires start > 0 && ttl > 0
    ensures var w := Run(Start(start), acts, grace, ttl);
            && Leasing(w, deadline) && w.g.now == start + DAY + 1 && Showing(w.g.st, start)
  {
    var first := FirstHolding(start, uuid, grace, ttl);
    var rest;
    rest, deadline := KeepRenewing(Run(Start(start), first, grace, ttl), start + ttl, start + DAY + 1, grace, ttl);
    acts := first + rest;
    RunConcat(Start(start), first, rest, grace, ttl);
  }

  // The lease is live, SetController is done, and the video is STANDBY.
  lemma ControlOutlivesVideo(start: int, uuid: string, grace: nat, ttl: int) returns (acts: seq<Action>)
    requires start > 0 && ttl > 0
    ensures var w := Run(Start(start), acts, grace, ttl);
            && Controlled(w, "car") && !RecordLives(w, "car")
            && Get(w.g.st, "car", w.g.now).1.mode == VideoMode.Standby
  {
    var deadline;
    acts, deadline := LapsesUnderControl(start, uuid, grace, ttl);
  }

  // ---------- controlled after the record lapsed ----------

  // No record names a controller for the vehicle.
  predicate NoController(w: Handlers, v: string) {
    RecordLives(w, v) ==> w.g.st.video[v].value.controller == ""
  }

  // Nobody sets a controller for the vehicle.
  ghost predicate NoneSet(w: Handlers, v: string, acts: seq<Action>, grace: nat, ttl: int)
    decreases |acts|
  {
    acts == [] ||
    (&& !(acts[0].SetController? && acts[0].sid in w.g.past.issued && w.g.past.issued[acts[0].sid].vehicleId == v)
     && NoneSet(Apply(w, acts[0], grace, ttl), v, acts[1..], grace, ttl))
  }

  lemma VideoKeepsNoController(w: Handlers, u: string, op: Op, stage: map<string, Stage>, grace: nat, v: string, ttl: int)
    requires HandlersOk(w, ttl) && NoController(w, v) && MayDo(w.stage, w.g.past, u, op, stage)
    requires u == v ==> !op.Take?
    ensures NoController(DoVideo(w, u, op, grace).(stage := stage), v)
  {
    assert RecordOk(w.g.st, w.g.past, u) && RecordOk(w.g.st, w.g.past, v);
    DoFrames(w.g.st, u, op, grace, w.g.now);
  }

  lemma StepKeepsNoController(w: Handlers, a: Action, grace: nat, ttl: int, v: string)
    requires HandlersOk(w, ttl) && NoController(w, v) && NoneSet(w, v, [a], grace, ttl)
    ensures NoController(Apply(w, a, grace, ttl), v)
  {
    assert [a][0] == a;
    match a
    case Control(b) => ControlKeepsVideo(w, b, grace, ttl);
    case SetController(t, uuid) =>
      if Apply(w, a, grace, ttl) != w {
        VideoKeepsNoController(w, w.g.past.issued[t].vehicleId, Take(t, uuid), w.stage[t := Open], grace, v, ttl);
      }
    case ClearController(t) =>
      if Apply(w, a, grace, ttl) != w {
        VideoKeepsNoController(w, w.g.past.issued[t].vehicleId, Quit(t), w.stage[t := Closed], grace, v, ttl);
      }
    case Viewer(u, op) =>
      if op.Look? || op.Join? || op.Leave? { VideoKeepsNoController(w, u, op, w.stage, grace, v, ttl); }
  }

  // Once the record of a vehicle has lapsed, controlled or not, and until the next SetController for it,
  // its video is ACTIVE exactly while a viewer or a grace period that has not ended holds it: control no
  // longer does.
  lemma {:induction false} LapsedRecordForgetsControl(w: Handlers, acts: seq<Action>, grace: nat, ttl: int, v: string)
    requires HandlersOk(w, ttl) && ttl > 0 && NoController(w, v) && NoneSet(w, v, acts, grace, ttl)
    ensures var w' := Run(w, acts, grace, ttl);
            var r := Get(w'.g.st, v, w'.g.now).1;
            && NoController(w', v) && r.controller == ""
            && (r.mode == VideoMode.Active <==> r.viewers > 0 || w'.g.now < r.graceDeadline)
    decreases |acts|
  {
    if acts == [] {
      assert RecordOk(w.g.st, w.g.past, v);
    } else {
      StepKeepsNoController(w, acts[0], grace, ttl, v);
      StepKeepsOk(w, acts[0], grace, ttl);
      LapsedRecordForgetsControl(Apply(w, acts[0], grace, ttl), acts[1..], grace, ttl, v);
    }
  }

  // So a record that lives again does not bring the guarantee back: after Ann's lapsed, a viewer joins and
  // leaves, the grace period ends, and her video is STANDBY with lease and record both live.
  lemma ViewersDoNotRestoreControl(start: int, uuid: string, grace: nat, ttl: int) returns (acts: seq<Action>)
    requires start > 0 && ttl > 0 && 0 < grace <= DAY
    ensures var w := Run(Start(start), acts, grace, ttl);
            && Controlled(w, "car") && RecordLives(w, "car")
            && Get(w.g.st, "car", w.g.now).1.mode == VideoMode.Standby
  {
    var first, deadline := LapsesUnderControl(start, uuid, grace, ttl);
    var w0 := Run(Start(start), first, grace, ttl);
    var visit := Visited(w0, deadline, uuid, grace, ttl);
    var w1 := Run(w0, visit, grace, ttl);
    var rest, end := KeepRenewing(w1, deadline, w1.g.now + grace, grace, ttl);
    acts := first + (visit + rest);
    RunConcat(w0, visit, rest, grace, ttl);
    RunConcat(Start(start), first, visit + rest, grace, ttl);
  }

  lemma Visited(w: Handlers, deadline: int, uuid: string, grace: nat, ttl: int) returns (acts: seq<Action>)
    requires !RecordLives(w, "car") && Leasing(w, deadline) && w.g.now > 0
    ensures var w' := Run(w, acts, grace, ttl);
            && w'.g.now == w.g.now && Leasing(w', deadline)
            && "car" in w'.g.st.video && w'.g.st.video["car"].deadline == w.g.now + DAY
            && IsGrace(w'.g.st.video["car"].value) && w'.g.st.video["car"].value.graceDeadline == w.g.now + grace
  {
    Then(w, [], Viewer("car", Join(uuid)), grace, ttl);
    acts := [] + [Viewer("car", Join(uuid))];
    var w1 := Run(w, acts, grace, ttl);
    assert "car" in w1.g.st.video && IsHeld(w1.g.st.video["car"].value) && w1.g.st.video["car"].value.viewers == 1;
    Then(w, acts, Viewer("car", Leave), grace, ttl);
    acts := acts + [Viewer("car", Leave)];
  }

  // ---------- control that ended without ClearController ----------

  predicate HeldFor(w: Handlers, v: string, sid: string) {
    v in w.g.st.video && IsHeld(w.g.st.video[v].value) && w.g.st.video[v].value.controller == sid != ""
  }

  // Nobody sets another controller for the vehicle, and its record lives before every action.
  ghost predicate Untouched(w: Handlers, v: string, acts: seq<Action>, grace: nat, ttl: int)
    decreases |acts|
  {
    acts == [] ||
    (&& RecordLives(w, v)
     && !(acts[0].SetController? && acts[0].sid in w.g.past.issued && w.g.past.issued[acts[0].sid].vehicleId == v)
     && Untouched(Apply(w, acts[0], grace, ttl), v, acts[1..], grace, ttl))
  }

  lemma VideoKeepsHeld(w: Handlers, u: string, op: Op, stage: map<string, Stage>, grace: nat, v: string, sid: string, ttl: int)
    requires HandlersOk(w, ttl) && HeldFor(w, v, sid) && RecordLives(w, v) && MayDo(w.stage, w.g.past, u, op, stage)
    requires u == v ==> !op.Take? && op != Quit(sid)
    ensures HeldFor(DoVideo(w, u, op, grace).(stage := stage), v, sid)
  {
    assert RecordOk(w.g.st, w.g.past, u) && RecordOk(w.g.st, w.g.past, v);
    DoFrames(w.g.st, u, op, grace, w.g.now);
    if u == v { HeldStaysHeld(w.g.st, v, op, grace, w.g.now); }
  }

  lemma ControlKeepsVideo(w: Handlers, b: Gateway.Action, grace: nat, ttl: int)
    ensures Apply(w, Control(b), grace, ttl).g.st.video == w.g.st.video
  {
  }

  lemma StepKeepsHeld(w: Handlers, a: Action, grace: nat, ttl: int, v: string, sid: string)
    requires HandlersOk(w, ttl) && HeldFor(w, v, sid) && Untouched(w, v, [a], grace, ttl)
    requires a == ClearController(sid) ==> Apply(w, a, grace, ttl) == w
    ensures HeldFor(Apply(w, a, grace, ttl), v, sid)
  {
    assert [a][0] == a;
    match a
    case Control(b) => ControlKeepsVideo(w, b, grace, ttl);
    case SetController(t, uuid) =>
      if Apply(w, a, grace, ttl) != w {
        VideoKeepsHeld(w, w.g.past.issued[t].vehicleId, Take(t, uuid), w.stage[t := Open], grace, v, sid, ttl);
      }
    case ClearController(t) =>
      if Apply(w, a, grace, ttl) != w {
        VideoKeepsHeld(w, w.g.past.issued[t].vehicleId, Quit(t), w.stage[t := Closed], grace, v, sid, ttl);
      }
    case Viewer(u, op) =>
      if op.Look? || op.Join? || op.Leave? { VideoKeepsHeld(w, u, op, w.stage, grace, v, sid, ttl); }
  }

  predicate NeverCleared(acts: seq<Action>, sid: string) {
    forall i :: 0 <= i < |acts| ==> acts[i] != ClearController(sid)
  }

  // While the controller a record names is neither cleared nor replaced, viewers may come and go as they
  // like: the video stays ACTIVE, never entering its grace period, up to and exactly until its record
  // lapses. So it is after a rollback, which releases the lease and leaves the record as it is.
  lemma {:induction false} UnclearedControlHoldsVideo(w: Handlers, acts: seq<Action>, grace: nat, ttl: int, v: string, sid: string)
    requires HandlersOk(w, ttl) && ttl > 0 && HeldFor(w, v, sid) && Untouched(w, v, acts, grace, ttl) && NeverCleared(acts, sid)
    ensures var w' := Run(w, acts, grace, ttl);
            && HeldFor(w', v, sid)
            && (Get(w'.g.st, v, w'.g.now).1.mode == VideoMode.Active <==> RecordLives(w', v))
            && (RecordLives(w', v) ==> Get(w'.g.st, v, w'.g.now).1.graceDeadline == 0)
    decreases |acts|
  {
    if acts != [] {
      assert acts[0] != ClearController(sid);
      StepKeepsHeld(w, acts[0], grace, ttl, v, sid);
      StepKeepsOk(w, acts[0], grace, ttl);
      UnclearedControlHoldsVideo(Apply(w, acts[0], grace, ttl), acts[1..], grace, ttl, v, sid);
    }
  }

  // The session lost its lease without releasing it.
  ghost predicate Lost(g: Gateway.Sys, v: string, sid: string) {
    && sid in g.past.rank && sid !in g.past.released && sid in g.past.issued && g.past.issued[sid].vehicleId == v
    && !(v in g.st.lease && g.now <= g.st.lease[v].deadline && g.st.lease[v].value.sessionId == sid)
  }

  lemma RoundTripKeepsLost(st: Store, h: Gateway.History, c: Client, now: int, ttl: int, v: string, sid: string)
    requires !c.Done? && Gateway.ClientOk(c, h, now, ttl) && sid in h.rank && sid in h.issued && h.issued[sid].vehicleId == v
    requires sid !in h.released
    requires !(v in st.lease && now <= st.lease[v].deadline && st.lease[v].value.sessionId == sid)
    ensures var (c', st') := ClientStep(c, st, now, ttl);
            var h' := Gateway.Record(h, c, c', now);
            && sid in h'.rank && sid !in h'.released
            && !(v in st'.lease && now <= st'.lease[v].deadline && st'.lease[v].value.sessionId == sid)
  {
  }

  lemma StepKeepsLost(w: Handlers, a: Action, grace: nat, ttl: int, v: string, sid: string)
    requires HandlersOk(w, ttl) && Lost(w.g, v, sid)
    ensures Lost(Apply(w, a, grace, ttl).g, v, sid)
    ensures a == ClearController(sid) ==> Apply(w, a, grace, ttl) == w
  {
    if a.Control? && Allowed(w, a.a) && a.a.Advance? && a.a.c in w.g.clients && !w.g.clients[a.a.c].Done? {
      var c := w.g.clients[a.a.c];
      assert Gateway.ClientOk(c, w.g.past, w.g.now, ttl);
      RoundTripKeepsLost(w.g.st, w.g.past, c, w.g.now, ttl, v, sid);
    } else if !a.Control? && Apply(w, a, grace, ttl) != w {
      VideoStepKeepsLeases(w, a, grace, ttl);
    }
  }

  lemma DoKeepsLeases(st: Store, v: string, op: Op, grace: nat, now: int)
    ensures Do(st, v, op, grace, now).0.lease == st.lease
  {
    assert Get(st, v, now).0.lease == st.lease;
  }

  lemma VideoStepKeepsLeases(w: Handlers, a: Action, grace: nat, ttl: int)
    requires !a.Control?
    ensures var g' := Apply(w, a, grace, ttl).g; g'.st.lease == w.g.st.lease && g'.past == w.g.past && g'.now == w.g.now
  {
    match a
    case SetController(t, uuid) =>
      if t in w.g.past.issued { DoKeepsLeases(w.g.st, w.g.past.issued[t].vehicleId, Take(t, uuid), grace, w.g.now); }
    case ClearController(t) =>
      if t in w.g.past.issued { DoKeepsLeases(w.g.st, w.g.past.issued[t].vehicleId, Quit(t), grace, w.g.now); }
    case Viewer(u, op) => DoKeepsLeases(w.g.st, u, op, grace, w.g.now);
  }

  lemma {:induction false} RunKeepsLost(w: Handlers, acts: seq<Action>, grace: nat, ttl: int, v: string, sid: string)
    requires HandlersOk(w, ttl) && ttl > 0 && HeldFor(w, v, sid) && Lost(w.g, v, sid) && Untouched(w, v, acts, grace, ttl)
    ensures HeldFor(Run(w, acts, grace, ttl), v, sid) && Lost(Run(w, acts, grace, ttl).g, v, sid)
    decreases |acts|
  {
    if acts != [] {
      StepKeepsLost(w, acts[0], grace, ttl, v, sid);
      StepKeepsHeld(w, acts[0], grace, ttl, v, sid);
      StepKeepsOk(w, acts[0], grace, ttl);
      RunKeepsLost(Apply(w, acts[0], grace, ttl), acts[1..], grace, ttl, v, sid);
    }
  }

  // Control that ends by its lease running out is never cleared from the video: with no release there is
  // no ClearController, whatever handlers run later. Until another session's SetController the video
  // stays ACTIVE, up to and exactly until its record lapses.
  lemma AbandonedControlHoldsVideo(w: Handlers, acts: seq<Action>, grace: nat, ttl: int, v: string, sid: string)
    requires HandlersOk(w, ttl) && ttl > 0 && HeldFor(w, v, sid) && Lost(w.g, v, sid) && Untouched(w, v, acts, grace, ttl)
    ensures var w' := Run(w, acts, grace, ttl);
            && (Get(w'.g.st, v, w'.g.now).1.mode == VideoMode.Active <==> RecordLives(w', v))
            && (RecordLives(w', v) ==> Get(w'.g.st, v, w'.g.now).1.graceDeadline == 0)
  {
    RunKeepsLost(w, acts, grace, ttl, v, sid);
  }

  // Such a state is reached by acquiring control and letting the lease run out.
  lemma ExpiryAbandonsControl(start: int, uuid: string, grace: nat, ttl: int) returns (acts: seq<Action>)
    requires start > 0 && 0 < ttl < DAY
    ensures var w := Run(Start(start), acts, grace, ttl);
            && HandlersOk(w, ttl) && HeldFor(w, "car", "s") && Lost(w.g, "car", "s") && RecordLives(w, "car")
            && Lookup(w.g.st.lease, "car", w.g.now).None?
  {
    var first := FirstHolding(start, uuid, grace, ttl);
    Then(Start(start), first, Control(Gateway.Tick(ttl + 1)), grace, ttl);
    acts := first + [Control(Gateway.Tick(ttl + 1))];
    RunKeepsOk(Start(start), acts, grace, ttl);
  }

  // And a rollback reaches one whose session was released: the lease goes by a release of its own, and the
  // handler that would clear the record never comes.
  lemma RollbackLeavesTheController(start: int, uuid: string, grace: nat, ttl: int) returns (acts: seq<Action>)
    requires start > 0 && ttl > 0
    ensures var w := Run(Start(start), acts, grace, ttl);
            && HandlersOk(w, ttl) && HeldFor(w, "car", "s") && RecordLives(w, "car")
            && "s" in w.g.past.released && Lookup(w.g.st.lease, "car", w.g.now).None?
  {
    var first := FirstHolding(start, uuid, grace, ttl);
    var w0 := Run(Start(start), first, grace, ttl);
    var rest := ReleasedAtOnce(w0, start, grace, ttl);
    acts := first + rest;
    RunConcat(Start(start), first, rest, grace, ttl);
    RunKeepsOk(Start(start), acts, grace, ttl);
  }

  lemma ReleasedAtOnce(w: Handlers, start: int, grace: nat, ttl: int) returns (acts: seq<Action>)
    requires Leasing(w, start + ttl) && Showing(w.g.st, start) && w.g.now == start
    ensures var w' := Run(w, acts, grace, ttl);
            && w'.g.st.video == w.g.st.video && w'.g.now == start && "s" in w'.g.past.released && "car" !in w'.g.st.lease
  {
    var req := Release("s", "ann");
    Then(w, [], Control(Gateway.Call(1, req)), grace, ttl);
    acts := [] + [Control(Gateway.Call(1, req))];
    assert Run(w, acts, grace, ttl) == Handlers(w.g.(clients := w.g.clients[1 := FindingVehicle(req)]), w.stage);
    Then(w, acts, STEP, grace, ttl);
    acts := acts + [STEP];
    assert Run(w, acts, grace, ttl) == Handlers(w.g.(clients := w.g.clients[1 := ReadingLease(req, "car")]), w.stage);
    Then(w, acts, STEP, grace, ttl);
    acts := acts + [STEP];
    assert Run(w, acts, grace, ttl) == Handlers(w.g.(clients := w.g.clients[1 := RunningScript(req, "car", 0)]), w.stage);
    Then(w, acts, STEP, grace, ttl);
    acts := acts + [STEP];
  }
}
