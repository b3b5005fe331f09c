// What a completed release of control leaves in the video record.
module ControlEnds {
  import opened Types
  import opened ControlLease
  import opened VideoRecords
  import opened ControlVideo
  import opened VideoAfterControl
  import Gateway = ControlSystem

  // ---------- a closed session is not named ----------

  // The controller a record names, whether the record is live or has lapsed, has its SetController behind
  // it and its ClearController still before it.
  ghost predicate NamesOpen(st: Store, stage: map<string, Stage>, v: string) {
    v in st.video && st.video[v].value.controller != "" ==>
      var c := st.video[v].value.controller;
      c in stage && (stage[c] == Open || stage[c] == Clearing)
  }

  lemma RoundTripKeepsNames(st: Store, h: Gateway.History, stage: map<string, Stage>, c: Client, now: int, ttl: int, v: string)
    requires !c.Done? && Gateway.ClientOk(c, h, now, ttl) && RecordOk(st, h, v) && NamesOpen(st, stage, v)
    ensures var (c', st') := ClientStep(c, st, now, ttl); NamesOpen(st', StageAfter(stage, c, c'), v)
  {
  }

  lemma SetKeepsNames(st: Store, h: Gateway.History, stage: map<string, Stage>, u: string, sid: string, uuid: string, grace: nat, now: int,
                      v: string)
    requires now > 0 && sid != "" && RecordOk(st, h, u) && NamesOpen(st, stage, v)
    ensures NamesOpen(Do(st, u, Take(sid, uuid), grace, now).0, stage[sid := Open], v)
  {
    DoFrames(st, u, Take(sid, uuid), grace, now);
    DoControllers(st, u, Take(sid, uuid), grace, now);
  }

  lemma QuitForgets(st: Store, u: string, sid: string, grace: nat, now: int)
    requires now > 0 && sid != "" && Filed(st, u)
    ensures var st' := Do(st, u, Quit(sid), grace, now).0; u in st'.video ==> st'.video[u].value.controller != sid
  {
  }

  lemma ClearKeepsNames(st: Store, h: Gateway.History, stage: map<string, Stage>, sid: string, grace: nat, now: int, v: string)
    requires now > 0 && sid != "" && sid in h.issued && RecordOk(st, h, h.issued[sid].vehicleId) && RecordOk(st, h, v)
    requires NamesOpen(st, stage, v)
    ensures NamesOpen(Do(st, h.issued[sid].vehicleId, Quit(sid), grace, now).0, stage[sid := Closed], v)
  {
    var u := h.issued[sid].vehicleId;
    DoFrames(st, u, Quit(sid), grace, now);
    DoControllers(st, u, Quit(sid), grace, now);
    QuitForgets(st, u, sid, grace, now);
  }

  // Only sessions with an id get past their SetController.
  ghost predicate Nameless(stage: map<string, Stage>) {
    "" in stage ==> stage[""] == Setting
  }

  lemma RoundTripKeepsNameless(st: Store, h: Gateway.History, stage: map<string, Stage>, c: Client, now: int, ttl: int)
    requires !c.Done? && Nameless(stage) && MayAsk(stage, c)
    ensures Nameless(StageAfter(stage, c, ClientStep(c, st, now, ttl).0))
  {
  }

  ghost predicate EndsOk(w: Handlers) {
    Nameless(w.stage) && forall v :: NamesOpen(w.g.st, w.stage, v)
  }

  lemma ControlKeepsEnds(w: Handlers, b: Gateway.Action, grace: nat, ttl: int)
    requires HandlersOk(w, ttl) && EndsOk(w)
    ensures EndsOk(Apply(w, Control(b), grace, ttl))
  {
    var w' := Apply(w, Control(b), grace, ttl);
    if Allowed(w, b) && b.Advance? && b.c in w.g.clients && !w.g.clients[b.c].Done? {
      var c := w.g.clients[b.c];
      assert Gateway.ClientOk(c, w.g.past, w.g.now, ttl) && MayAsk(w.stage, c);
      RoundTripKeepsNameless(w.g.st, w.g.past, w.stage, c, w.g.now, ttl);
      forall v ensures NamesOpen(w'.g.st, w'.stage, v) {
        assert RecordOk(w.g.st, w.g.past, v) && NamesOpen(w.g.st, w.stage, v);
        RoundTripKeepsNames(w.g.st, w.g.past, w.stage, c, w.g.now, ttl, v);
      }
    } else {
      ControlKeepsVideo(w, b, grace, ttl);
      forall v ensures NamesOpen(w'.g.st, w'.stage, v) { assert NamesOpen(w.g.st, w.stage, v); }
    }
  }

  lemma StepKeepsEnds(w: Handlers, a: Action, grace: nat, ttl: int)
    requires HandlersOk(w, ttl) && EndsOk(w)
    ensures EndsOk(Apply(w, a, grace, ttl))
  {
    var w' := Apply(w, a, grace, ttl);
    if a.Control? {
      ControlKeepsEnds(w, a.a, grace, ttl);
    } else {
      forall v ensures NamesOpen(w'.g.st, w'.stage, v) {
        assert RecordOk(w.g.st, w.g.past, v) && NamesOpen(w.g.st, w.stage, v);
        if w' != w { VideoKeepsNames(w, a, grace, ttl, v); }
      }
    }
  }

  lemma VideoKeepsNames(w: Handlers, a: Action, grace: nat, ttl: int, v: string)
    requires HandlersOk(w, ttl) && EndsOk(w) && !a.Control? && Apply(w, a, grace, ttl) != w
    requires RecordOk(w.g.st, w.g.past, v) && NamesOpen(w.g.st, w.stage, v)
    ensures NamesOpen(Apply(w, a, grace, ttl).g.st, Apply(w, a, grace, ttl).stage, v)
  {
    match a
    case SetController(sid, uuid) =>
      var u := w.g.past.issued[sid].vehicleId;
      assert RecordOk(w.g.st, w.g.past, u);
      SetKeepsNames(w.g.st, w.g.past, w.stage, u, sid, uuid, grace, w.g.now, v);
    case ClearController(sid) =>
      assert RecordOk(w.g.st, w.g.past, w.g.past.issued[sid].vehicleId);
      ClearKeepsNames(w.g.st, w.g.past, w.stage, sid, grace, w.g.now, v);
    case Viewer(u, op) =>
      assert RecordOk(w.g.st, w.g.past, u);
      DoFrames(w.g.st, u, op, grace, w.g.now);
      DoControllers(w.g.st, u, op, grace, w.g.now);
    case _ =>
  }

  lemma {:induction false} RunKeepsEnds(w: Handlers, acts: seq<Action>, grace: nat, ttl: int)
    requires HandlersOk(w, ttl) && ttl > 0 && EndsOk(w)
    ensures EndsOk(Run(w, acts, grace, ttl))
    decreases |acts|
  {
    if acts != [] {
      StepKeepsOk(w, acts[0], grace, ttl);
      StepKeepsEnds(w, acts[0], grace, ttl);
      RunKeepsEnds(Apply(w, acts[0], grace, ttl), acts[1..], grace, ttl);
    }
  }

  lemma RoundTripKeepsClosed(st: Store, h: Gateway.History, stage: map<string, Stage>, c: Client, now: int, ttl: int, sid: string)
    requires !c.Done? && Gateway.ClientOk(c, h, now, ttl) && StagesOk(stage, h) && sid in stage && stage[sid] == Closed
    requires forall v :: v in st.lease ==> st.lease[v].value.sessionId !in h.released
    ensures var stage' := StageAfter(stage, c, ClientStep(c, st, now, ttl).0); sid in stage' && stage'[sid] == Closed
  {
  }

  lemma StepKeepsClosed(w: Handlers, a: Action, grace: nat, ttl: int, sid: string)
    requires HandlersOk(w, ttl) && sid in w.stage && w.stage[sid] == Closed
    ensures var w' := Apply(w, a, grace, ttl); sid in w'.stage && w'.stage[sid] == Closed
  {
    if a.Control? && Allowed(w, a.a) && a.a.Advance? && a.a.c in w.g.clients && !w.g.clients[a.a.c].Done? {
      assert Gateway.ClientOk(w.g.clients[a.a.c], w.g.past, w.g.now, ttl);
      forall v | v in w.g.st.lease ensures w.g.st.lease[v].value.sessionId !in w.g.past.released {
        assert Gateway.LeaseOk(v, w.g.st.lease[v], w.g.past, w.g.now, ttl);
      }
      RoundTripKeepsClosed(w.g.st, w.g.past, w.stage, w.g.clients[a.a.c], w.g.now, ttl, sid);
    }
  }

  lemma {:induction false} RunKeepsClosed(w: Handlers, acts: seq<Action>, grace: nat, ttl: int, sid: string)
    requires HandlersOk(w, ttl) && ttl > 0 && sid in w.stage && w.stage[sid] == Closed
    ensures var w' := Run(w, acts, grace, ttl); sid in w'.stage && w'.stage[sid] == Closed
    decreases |acts|
  {
    if acts != [] {
      StepKeepsOk(w, acts[0], grace, ttl);
      StepKeepsClosed(w, acts[0], grace, ttl, sid);
      RunKeepsClosed(Apply(w, acts[0], grace, ttl), acts[1..], grace, ttl, sid);
    }
  }

  // In every run: once the handlers of a session's release are through, no stored record names it as
  // controller, then or ever after, whatever handlers of other sessions do.
  lemma ClosedControlIsForgotten(start: int, past: seq<Action>, acts: seq<Action>, grace: nat, ttl: int, sid: string, v: string)
    requires start > 0 && ttl > 0 && sid != ""
    requires var w := Run(Start(start), past, grace, ttl); sid in w.stage && w.stage[sid] == Closed
    ensures var st := Run(Start(start), past + acts, grace, ttl).g.st;
            v in st.video ==> st.video[v].value.controller != sid
  {
    RunKeepsOk(Start(start), past, grace, ttl);
    RunConcat(Start(start), past, acts, grace, ttl);
    RunKeepsClosed(Run(Start(start), past, grace, ttl), acts, grace, ttl, sid);
    RunKeepsEnds(Start(start), past + acts, grace, ttl);
    var w := Run(Start(start), past + acts, grace, ttl);
    assert NamesOpen(w.g.st, w.stage, v);
  }

  // ---------- the grace period after a release ----------

  // Nobody joins, leaves, takes or clears control of this vehicle.
  ghost predicate Alone(w: Handlers, v: string, acts: seq<Action>, grace: nat, ttl: int)
    decreases |acts|
  {
    acts == [] || (LeavesAlone(w, v, acts[0]) && Alone(Apply(w, acts[0], grace, ttl), v, acts[1..], grace, ttl))
  }

  ghost predicate LeavesAlone(w: Handlers, v: string, a: Action) {
    match a
    case Control(_) => true
    case SetController(sid, _) => sid in w.g.past.issued ==> w.g.past.issued[sid].vehicleId != v
    case ClearController(sid) => sid in w.g.past.issued ==> w.g.past.issued[sid].vehicleId != v
    case Viewer(u, op) => u == v ==> op.Look?
  }

  // The record of a vehicle that was left at `left`, as reads since may have saved it.
  predicate Fading(st: Store, v: string, left: int, grace: nat, now: int) {
    && 0 < left <= now && v in st.video && st.video[v].value.vehicleId == v
    && ((IsGrace(st.video[v].value) && st.video[v].value.graceDeadline == left + grace && st.video[v].deadline == left + DAY)
        || (IsStandby(st.video[v].value) && now >= left + grace))
  }

  lemma FadingShows(st: Store, v: string, left: int, grace: nat, now: int)
    requires Fading(st, v, left, grace, now)
    ensures Get(st, v, now).1.mode == VideoMode.Standby <==> now >= left + grace || now > left + DAY
    ensures Fading(Get(st, v, now).0, v, left, grace, now)
  {
  }

  lemma DoKeepsFading(st: Store, u: string, op: Op, v: string, left: int, grace: nat, now: int)
    requires now > 0 && Proper(op) && Filed(st, u) && Fading(st, v, left, grace, now) && (u == v ==> op.Look?)
    ensures Fading(Do(st, u, op, grace, now).0, v, left, grace, now)
  {
    if u == v {
      FadingShows(st, v, left, grace, now);
    } else {
      DoFrames(st, u, op, grace, now);
    }
  }

  lemma StepKeepsFading(w: Handlers, a: Action, grace: nat, ttl: int, v: string, left: int)
    requires HandlersOk(w, ttl) && Fading(w.g.st, v, left, grace, w.g.now) && LeavesAlone(w, v, a)
    ensures var w' := Apply(w, a, grace, ttl); Fading(w'.g.st, v, left, grace, w'.g.now)
  {
    match a
    case Control(b) => ControlKeepsVideo(w, b, grace, ttl);
    case SetController(sid, uuid) =>
      if Apply(w, a, grace, ttl) != w {
        assert RecordOk(w.g.st, w.g.past, w.g.past.issued[sid].vehicleId);
        DoKeepsFading(w.g.st, w.g.past.issued[sid].vehicleId, Take(sid, uuid), v, left, grace, w.g.now);
      }
    case ClearController(sid) =>
      if Apply(w, a, grace, ttl) != w {
        assert RecordOk(w.g.st, w.g.past, w.g.past.issued[sid].vehicleId);
        DoKeepsFading(w.g.st, w.g.past.issued[sid].vehicleId, Quit(sid), v, left, grace, w.g.now);
      }
    case Viewer(u, op) =>
      assert RecordOk(w.g.st, w.g.past, u);
      if op.Look? || op.Join? || op.Leave? { DoKeepsFading(w.g.st, u, op, v, left, grace, w.g.now); }
  }

  lemma {:induction false} RunKeepsFading(w: Handlers, acts: seq<Action>, grace: nat, ttl: int, v: string, left: int)
    requires HandlersOk(w, ttl) && ttl > 0 && Fading(w.g.st, v, left, grace, w.g.now) && Alone(w, v, acts, grace, ttl)
    ensures var w' := Run(w, acts, grace, ttl); Fading(w'.g.st, v, left, grace, w'.g.now)
    decreases |acts|
  {
    if acts != [] {
      StepKeepsFading(w, acts[0], grace, ttl, v, left);
      StepKeepsOk(w, acts[0], grace, ttl);
      RunKeepsFading(Apply(w, acts[0], grace, ttl), acts[1..], grace, ttl, v, left);
    }
  }

  lemma QuitBeginsGrace(st: Store, v: string, sid: string, grace: nat, now: int)
    requires now > 0 && Filed(st, v) && Lookup(st.video, v, now).Some?
    requires st.video[v].value.viewers == 0 && st.video[v].value.controller == sid
    ensures Fading(Do(st, v, Quit(sid), grace, now).0, v, now, grace, now)
  {
  }

  // The ClearController of a release, on a live record with no viewers that names its session.
  lemma ClearBeginsGrace(w: Handlers, sid: string, grace: nat, ttl: int)
    requires HandlersOk(w, ttl) && sid in w.stage && w.stage[sid] == Clearing && sid in w.g.past.issued
    requires var v := w.g.past.issued[sid].vehicleId;
             RecordLives(w, v) && w.g.st.video[v].value.viewers == 0 && w.g.st.video[v].value.controller == sid
    ensures var w' := Apply(w, ClearController(sid), grace, ttl);
            && Fading(w'.g.st, w.g.past.issued[sid].vehicleId, w.g.now, grace, w.g.now) && w'.g.now == w.g.now
            && w'.stage == w.stage[sid := Closed]
  {
    assert RecordOk(w.g.st, w.g.past, w.g.past.issued[sid].vehicleId);
    QuitBeginsGrace(w.g.st, w.g.past.issued[sid].vehicleId, sid, grace, w.g.now);
  }

  // In every run: when the release of the controller that the record names completes with nobody viewing,
  // and nobody joins or takes control after it, the video is in STANDBY from the end of the grace period
  // on, or of the day the record is kept, and at no earlier instant, however often it is read.
  lemma ReleaseLetsVideoRest(start: int, past: seq<Action>, sid: string, acts: seq<Action>, grace: nat, ttl: int)
    requires start > 0 && ttl > 0
    requires var w := Run(Start(start), past, grace, ttl);
             && sid in w.stage && w.stage[sid] == Clearing && sid in w.g.past.issued
             && var v := w.g.past.issued[sid].vehicleId;
                && RecordLives(w, v) && w.g.st.video[v].value.viewers == 0 && w.g.st.video[v].value.controller == sid
                && Alone(Apply(w, ClearController(sid), grace, ttl), v, acts, grace, ttl)
    ensures var w := Run(Start(start), past, grace, ttl);
            var v := w.g.past.issued[sid].vehicleId;
            var w' := Run(Apply(w, ClearController(sid), grace, ttl), acts, grace, ttl);
            Get(w'.g.st, v, w'.g.now).1.mode == VideoMode.Standby <==>
              w'.g.now >= w.g.now + grace || w'.g.now > w.g.now + DAY
  {
    var w := Run(Start(start), past, grace, ttl);
    var v := w.g.past.issued[sid].vehicleId;
    RunKeepsOk(Start(start), past, grace, ttl);
    ClearBeginsGrace(w, sid, grace, ttl);
    StepKeepsOk(w, ClearController(sid), grace, ttl);
    var w1 := Apply(w, ClearController(sid), grace, ttl);
    RunKeepsFading(w1, acts, grace, ttl, v, w.g.now);
    var w' := Run(w1, acts, grace, ttl);
    FadingShows(w'.g.st, v, w.g.now, grace, w'.g.now);
  }
}
