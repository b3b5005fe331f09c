// Control ACTIVE => video ACTIVE, over whole runs of both stores.
module ControlVideo {
  import opened Types
  import opened ControlLease
  import opened VideoRecords
  import Gateway = ControlSystem

  // How far the acquire and release handlers of a session got with the video record.
  datatype Stage =
    | Setting    // lease won, SetController still to come
    | Open       // SetController done, the acquire response may go out
    | Clearing   // lease released, ClearController still to come, if it comes at all
    | Closed

  datatype Handlers = Handlers(g: Gateway.Sys, stage: map<string, Stage>)

  datatype Action =
    | Control(a: Gateway.Action)
    | SetController(sid: string, uuid: string)
    | ClearController(sid: string)
    | Viewer(v: string, op: Op)

  function Start(now: int): Handlers {
    Handlers(Gateway.Init(now), map[])
  }

  // A release can only be asked for once the acquire response was sent.
  predicate Allowed(w: Handlers, a: Gateway.Action) {
    a.Call? && a.req.Release? ==> a.req.sid in w.stage && w.stage[a.req.sid] != Setting
  }

  // What the end of a lease request leaves for its handler to do.
  function StageAfter(stage: map<string, Stage>, c: Client, c': Client): map<string, Stage> {
    if c.Acquiring? && c' == Done(Ok) then stage[c.session.sessionId := Setting]
    else if c.RunningScript? && c.req.Release? && c' == Done(Ok) then stage[c.req.sid := Clearing]
    else stage
  }

  function DoVideo(w: Handlers, v: string, op: Op, grace: nat): Handlers {
    w.(g := w.g.(st := Do(w.g.st, v, op, grace, w.g.now).0))
  }

  // An action that is not enabled leaves the state as it is.
  function Apply(w: Handlers, a: Action, grace: nat, ttl: int): Handlers {
    match a
    case Control(b) =>
      if Allowed(w, b) then
        var moves := b.Advance? && b.c in w.g.clients && !w.g.clients[b.c].Done?;
        Handlers(Gateway.Apply(w.g, b, ttl),
                 if moves then StageAfter(w.stage, w.g.clients[b.c], ClientStep(w.g.clients[b.c], w.g.st, w.g.now, ttl).0)
                 else w.stage)
      else w
    case SetController(sid, uuid) =>
      if sid != "" && sid in w.stage && w.stage[sid] == Setting && sid in w.g.past.issued then
        DoVideo(w, w.g.past.issued[sid].vehicleId, Take(sid, uuid), grace).(stage := w.stage[sid := Open])
      else w
    case ClearController(sid) =>
      if sid in w.stage && w.stage[sid] == Clearing && sid in w.g.past.issued then
        DoVideo(w, w.g.past.issued[sid].vehicleId, Quit(sid), grace).(stage := w.stage[sid := Closed])
      else w
    case Viewer(v, op) =>
      if op.Look? || op.Join? || op.Leave? then DoVideo(w, v, op, grace) else w
  }

  function Run(w: Handlers, acts: seq<Action>, grace: nat, ttl: int): Handlers
    decreases |acts|
  {
    if acts == [] then w else Run(Apply(w, acts[0], grace, ttl), acts[1..], grace, ttl)
  }

  lemma {:induction false} RunConcat(w: Handlers, a: seq<Action>, b: seq<Action>, grace: nat, ttl: int)
    ensures Run(w, a + b, grace, ttl) == Run(Run(w, a, grace, ttl), b, grace, ttl)
    decreases |a|
  {
    if a == [] {
      assert a + b == b;
    } else {
      assert (a + b)[1..] == a[1..] + b;
      RunConcat(Apply(w, a[0], grace, ttl), a[1..], b, grace, ttl);
    }
  }

  predicate ControlledAt(st: Store, stage: map<string, Stage>, v: string, now: int) {
    && v in st.lease && now <= st.lease[v].deadline
    && st.lease[v].value.sessionId in stage && stage[st.lease[v].value.sessionId] == Open
  }

  // The vehicle's lease is live and its SetController has completed.
  predicate Controlled(w: Handlers, v: string) {
    ControlledAt(w.g.st, w.stage, v, w.g.now)
  }

  // Less than a day has passed since the last save of the video record of a vehicle.
  predicate RecordLives(w: Handlers, v: string) {
    v in w.g.st.video && w.g.now <= w.g.st.video[v].deadline
  }

  // The record of this vehicle lives before every action of the run at which the vehicle is controlled.
  ghost predicate FreshRun(w: Handlers, v: string, acts: seq<Action>, grace: nat, ttl: int)
    decreases |acts|
  {
    acts == [] ||
    ((Controlled(w, v) ==> RecordLives(w, v)) && FreshRun(Apply(w, acts[0], grace, ttl), v, acts[1..], grace, ttl))
  }

  // ---------- the invariant ----------

  ghost predicate StagesOk(stage: map<string, Stage>, h: Gateway.History) {
    && stage.Keys == h.rank.Keys
    && (forall sid :: sid in stage ==> (sid in h.released <==> stage[sid] == Clearing || stage[sid] == Closed))
  }

  predicate MayAsk(stage: map<string, Stage>, c: Client) {
    var asks := !c.Acquiring? && !c.Done? && c.req.Release?;
    asks ==> c.req.sid in stage && stage[c.req.sid] != Setting
  }

  // The controller named by a record is a session of that vehicle.
  ghost predicate RecordOk(st: Store, h: Gateway.History, v: string) {
    && Filed(st, v)
    && (v in st.video && st.video[v].value.controller != "" ==>
          var c := st.video[v].value.controller;
          c in h.rank && c in h.issued && h.issued[c].vehicleId == v)
  }

  // The record of a controlled vehicle is held by a session that was not released, so that no
  // ClearController for it is to come.
  ghost predicate Kept(st: Store, stage: map<string, Stage>, h: Gateway.History, v: string, now: int) {
    ControlledAt(st, stage, v, now) ==>
      && v in st.video && IsHeld(st.video[v].value)
      && st.video[v].value.controller != "" && st.video[v].value.controller !in h.released
  }

  ghost predicate HandlersOk(w: Handlers, ttl: int) {
    && Gateway.Inv(w.g, ttl) && w.g.now > 0 && StagesOk(w.stage, w.g.past)
    && (forall c :: c in w.g.clients ==> MayAsk(w.stage, w.g.clients[c]))
    && (forall v :: RecordOk(w.g.st, w.g.past, v))
  }

  ghost predicate KeptNow(w: Handlers, v: string) {
    Kept(w.g.st, w.stage, w.g.past, v, w.g.now)
  }

  // ---------- lease steps ----------

  lemma RoundTripKeepsStages(st: Store, h: Gateway.History, stage: map<string, Stage>, c: Client, now: int, ttl: int)
    requires !c.Done? && Gateway.HistoryOk(h, now) && Gateway.ClientOk(c, h, now, ttl) && StagesOk(stage, h) && MayAsk(stage, c)
    ensures var c' := ClientStep(c, st, now, ttl).0;
            && StagesOk(StageAfter(stage, c, c'), Gateway.Record(h, c, c', now))
            && MayAsk(StageAfter(stage, c, c'), c')
  {
  }

  lemma OthersMayStillAsk(stage: map<string, Stage>, h: Gateway.History, c: Client, c': Client, d: Client, now: int, ttl: int)
    requires Gateway.ClientOk(c, h, now, ttl) && StagesOk(stage, h) && MayAsk(stage, d)
    ensures MayAsk(StageAfter(stage, c, c'), d)
  {
  }

  // A vehicle controlled after a round trip was controlled before it.
  lemma NoNewControl(st: Store, h: Gateway.History, stage: map<string, Stage>, c: Client, now: int, ttl: int, v: string)
    requires !c.Done? && Gateway.ClientOk(c, h, now, ttl) && StagesOk(stage, h)
    ensures var (c', st') := ClientStep(c, st, now, ttl);
            st'.video == st.video
            && (ControlledAt(st', StageAfter(stage, c, c'), v, now) ==> ControlledAt(st, stage, v, now))
  {
  }

  // A session that a round trip releases held the vehicle it was built for, which then is not controlled.
  lemma ReleasedSessionLosesControl(st: Store, h: Gateway.History, stage: map<string, Stage>, c: Client, now: int, ttl: int, sid: string)
    requires !c.Done? && Gateway.ClientOk(c, h, now, ttl) && sid in h.issued && sid !in h.released
    requires sid in Gateway.Record(h, c, ClientStep(c, st, now, ttl).0, now).released
    ensures h.issued[sid].vehicleId !in ClientStep(c, st, now, ttl).1.lease
  {
  }

  lemma RoundTripKeepsKept(st: Store, h: Gateway.History, stage: map<string, Stage>, c: Client, now: int, ttl: int, v: string)
    requires !c.Done? && Gateway.ClientOk(c, h, now, ttl) && StagesOk(stage, h)
    requires RecordOk(st, h, v) && Kept(st, stage, h, v, now)
    ensures var (c', st') := ClientStep(c, st, now, ttl);
            Kept(st', StageAfter(stage, c, c'), Gateway.Record(h, c, c', now), v, now)
  {
    var (c', st') := ClientStep(c, st, now, ttl);
    NoNewControl(st, h, stage, c, now, ttl, v);
    if ControlledAt(st', StageAfter(stage, c, c'), v, now) {
      var holder := st.video[v].value.controller;
      if holder in Gateway.Record(h, c, c', now).released {
        ReleasedSessionLosesControl(st, h, stage, c, now, ttl, holder);
      }
    }
  }

  lemma RoundTripKeepsRecord(st: Store, h: Gateway.History, c: Client, now: int, ttl: int, v: string)
    requires !c.Done? && Gateway.ClientOk(c, h, now, ttl) && RecordOk(st, h, v)
    ensures var (c', st') := ClientStep(c, st, now, ttl);
            RecordOk(st', Gateway.Record(h, c, c', now), v) && st'.video == st.video
  {
  }

  lemma RoundTripKeepsRecords(w: Handlers, c: Client, ttl: int)
    requires HandlersOk(w, ttl) && !c.Done? && Gateway.ClientOk(c, w.g.past, w.g.now, ttl)
    ensures var (c', st') := ClientStep(c, w.g.st, w.g.now, ttl);
            forall v :: RecordOk(st', Gateway.Record(w.g.past, c, c', w.g.now), v)
  {
    var (c', st') := ClientStep(c, w.g.st, w.g.now, ttl);
    forall v ensures RecordOk(st', Gateway.Record(w.g.past, c, c', w.g.now), v) {
      assert RecordOk(w.g.st, w.g.past, v);
      RoundTripKeepsRecord(w.g.st, w.g.past, c, w.g.now, ttl, v);
    }
  }

  lemma RoundTripKeepsAsking(w: Handlers, c: nat, ttl: int)
    requires HandlersOk(w, ttl) && c in w.g.clients && !w.g.clients[c].Done?
    ensures var before := w.g.clients[c];
            var after := ClientStep(before, w.g.st, w.g.now, ttl).0;
            var stage' := StageAfter(w.stage, before, after);
            var clients' := w.g.clients[c := after];
            && StagesOk(stage', Gateway.Record(w.g.past, before, after, w.g.now))
            && forall d :: d in clients' ==> MayAsk(stage', clients'[d])
  {
    var before := w.g.clients[c];
    var after := ClientStep(before, w.g.st, w.g.now, ttl).0;
    assert Gateway.ClientOk(before, w.g.past, w.g.now, ttl);
    RoundTripKeepsStages(w.g.st, w.g.past, w.stage, before, w.g.now, ttl);
    forall d | d in w.g.clients ensures MayAsk(StageAfter(w.stage, before, after), w.g.clients[d]) {
      OthersMayStillAsk(w.stage, w.g.past, before, after, w.g.clients[d], w.g.now, ttl);
    }
  }

  lemma AdvanceKeepsHandlers(w: Handlers, c: nat, grace: nat, ttl: int)
    requires HandlersOk(w, ttl) && ttl > 0 && c in w.g.clients && !w.g.clients[c].Done?
    ensures HandlersOk(Apply(w, Control(Gateway.Advance(c)), grace, ttl), ttl)
  {
    Gateway.AdvanceKeepsInv(w.g, c, ttl);
    assert Gateway.ClientOk(w.g.clients[c], w.g.past, w.g.now, ttl);
    RoundTripKeepsAsking(w, c, ttl);
    RoundTripKeepsRecords(w, w.g.clients[c], ttl);
  }

  // Asking for a lease, a renewal or a release, and passing time, touch no record.
  lemma CallKeepsRecords(w: Handlers, b: Gateway.Action, grace: nat, ttl: int)
    requires HandlersOk(w, ttl) && Allowed(w, b) && !b.Advance?
    ensures var w' := Apply(w, Control(b), grace, ttl);
            && w'.stage == w.stage && w'.g.st == w.g.st && w.g.now <= w'.g.now
            && w'.g.past.rank == w.g.past.rank && w'.g.past.released == w.g.past.released
            && (forall d :: d in w'.g.clients ==> MayAsk(w.stage, w'.g.clients[d]))
            && (forall v :: RecordOk(w'.g.st, w'.g.past, v))
  {
    var w' := Apply(w, Control(b), grace, ttl);
    forall v ensures RecordOk(w'.g.st, w'.g.past, v) { assert RecordOk(w.g.st, w.g.past, v); }
  }

  lemma ControlKeepsHandlers(w: Handlers, b: Gateway.Action, grace: nat, ttl: int)
    requires HandlersOk(w, ttl) && ttl > 0 && Allowed(w, b)
    ensures HandlersOk(Apply(w, Control(b), grace, ttl), ttl)
  {
    if !b.Advance? {
      Gateway.StepKeepsInv(w.g, b, ttl);
      CallKeepsRecords(w, b, grace, ttl);
    } else if b.c in w.g.clients && !w.g.clients[b.c].Done? {
      AdvanceKeepsHandlers(w, b.c, grace, ttl);
    }
  }

  // ---------- video steps ----------

  // An operation on a live record keeps it held unless it takes the record's own controller away.
  lemma HeldStaysHeld(st: Store, v: string, op: Op, grace: nat, now: int)
    requires now > 0 && Proper(op) && Filed(st, v) && Lookup(st.video, v, now).Some?
    requires IsHeld(st.video[v].value) && st.video[v].value.controller != ""
    requires op.Quit? ==> op.controller != st.video[v].value.controller
    ensures var st' := Do(st, v, op, grace, now).0;
            && v in st'.video && IsHeld(st'.video[v].value)
            && st'.video[v].value.controller == if op.Take? then op.controller else st.video[v].value.controller
  {
  }

  lemma DoControllers(st: Store, v: string, op: Op, grace: nat, now: int)
    requires now > 0 && Proper(op) && Filed(st, v)
    ensures var st' := Do(st, v, op, grace, now).0;
            && st'.lease == st.lease && st'.index == st.index
            && (v in st'.video ==>
                  || st'.video[v].value.controller == ""
                  || (op.Take? && st'.video[v].value.controller == op.controller)
                  || (v in st.video && st'.video[v].value.controller == st.video[v].value.controller))
  {
  }

  // The handler steps and viewer requests that touch a vehicle's record, with the stage they lead to.
  ghost predicate MayDo(stage: map<string, Stage>, h: Gateway.History, v: string, op: Op, stage': map<string, Stage>) {
    match op
    case Take(c, _) => c != "" && c in stage && stage[c] == Setting && c in h.issued && h.issued[c].vehicleId == v
                       && stage' == stage[c := Open]
    case Quit(c) => c in stage && stage[c] == Clearing && stage' == stage[c := Closed]
    case _ => stage' == stage
  }

  lemma VideoKeepsKept(st: Store, h: Gateway.History, stage: map<string, Stage>, v: string, op: Op, stage': map<string, Stage>,
                       grace: nat, now: int, u: string)
    requires now > 0 && StagesOk(stage, h) && MayDo(stage, h, v, op, stage') && RecordOk(st, h, v) && RecordOk(st, h, u)
    requires forall w :: w in st.lease && st.lease[w].value.sessionId in h.issued
                ==> h.issued[st.lease[w].value.sessionId].vehicleId == w
    requires Kept(st, stage, h, u, now)
    requires ControlledAt(st, stage, u, now) ==> Lookup(st.video, u, now).Some?
    ensures Kept(Do(st, v, op, grace, now).0, stage', h, u, now)
  {
    DoFrames(st, v, op, grace, now);
    DoControllers(st, v, op, grace, now);
    if u == v && ControlledAt(st, stage, u, now) {
      HeldStaysHeld(st, v, op, grace, now);
    } else if u == v && op.Take? {
      TakeHolds(st, v, op, grace, now);
    }
  }

  lemma VideoLeavesGateway(g: Gateway.Sys, st: Store, ttl: int)
    requires Gateway.Inv(g, ttl) && st.lease == g.st.lease && st.index == g.st.index
    ensures Gateway.Inv(g.(st := st), ttl)
  {
    forall v | v in st.lease ensures Gateway.PairOk(v, st) { assert Gateway.PairOk(v, g.st); }
    forall sid | sid in st.index ensures Gateway.IndexOk(sid, st, g.past, g.now) {
      assert Gateway.IndexOk(sid, g.st, g.past, g.now);
    }
  }

  lemma HolderIsOwn(g: Gateway.Sys, u: string, ttl: int)
    requires Gateway.Inv(g, ttl) && u in g.st.lease
    ensures g.st.lease[u].value.sessionId in g.past.issued && g.past.issued[g.st.lease[u].value.sessionId].vehicleId == u
  {
    assert Gateway.LeaseOk(u, g.st.lease[u], g.past, g.now, ttl);
  }

  lemma VideoKeepsVehicle(w: Handlers, v: string, op: Op, stage: map<string, Stage>, grace: nat, ttl: int, u: string)
    requires HandlersOk(w, ttl) && MayDo(w.stage, w.g.past, v, op, stage)
    requires KeptNow(w, u) && (Controlled(w, u) ==> RecordLives(w, u))
    ensures Kept(Do(w.g.st, v, op, grace, w.g.now).0, stage, w.g.past, u, w.g.now)
  {
    forall x | x in w.g.st.lease { HolderIsOwn(w.g, x, ttl); }
    assert RecordOk(w.g.st, w.g.past, v) && RecordOk(w.g.st, w.g.past, u);
    VideoKeepsKept(w.g.st, w.g.past, w.stage, v, op, stage, grace, w.g.now, u);
  }

  lemma VideoKeepsRecord(w: Handlers, v: string, op: Op, stage: map<string, Stage>, grace: nat, ttl: int, u: string)
    requires HandlersOk(w, ttl) && MayDo(w.stage, w.g.past, v, op, stage)
    ensures RecordOk(Do(w.g.st, v, op, grace, w.g.now).0, w.g.past, u)
  {
    assert RecordOk(w.g.st, w.g.past, v) && RecordOk(w.g.st, w.g.past, u);
    DoFrames(w.g.st, v, op, grace, w.g.now);
    DoControllers(w.g.st, v, op, grace, w.g.now);
  }

  lemma StagesFollow(stage: map<string, Stage>, h: Gateway.History, v: string, op: Op, stage': map<string, Stage>, c: Client)
    requires StagesOk(stage, h) && MayDo(stage, h, v, op, stage') && MayAsk(stage, c)
    ensures StagesOk(stage', h) && MayAsk(stage', c)
  {
  }

  lemma VideoKeepsHandlers(w: Handlers, v: string, op: Op, stage: map<string, Stage>, grace: nat, ttl: int)
    requires HandlersOk(w, ttl) && MayDo(w.stage, w.g.past, v, op, stage)
    ensures HandlersOk(DoVideo(w, v, op, grace).(stage := stage), ttl)
  {
    var w' := DoVideo(w, v, op, grace).(stage := stage);
    assert RecordOk(w.g.st, w.g.past, v);
    DoControllers(w.g.st, v, op, grace, w.g.now);
    VideoLeavesGateway(w.g, w'.g.st, ttl);
    StagesFollow(w.stage, w.g.past, v, op, stage, Done(Ok));
    forall u ensures RecordOk(w'.g.st, w'.g.past, u) {
      VideoKeepsRecord(w, v, op, stage, grace, ttl, u);
    }
    forall c | c in w'.g.clients ensures MayAsk(stage, w'.g.clients[c]) {
      StagesFollow(w.stage, w.g.past, v, op, stage, w.g.clients[c]);
    }
  }

  lemma TakeHolds(st: Store, v: string, op: Op, grace: nat, now: int)
    requires now > 0 && Proper(op) && op.Take? && Filed(st, v)
    ensures var st' := Do(st, v, op, grace, now).0;
            v in st'.video && IsHeld(st'.video[v].value) && st'.video[v].value.controller == op.controller
  {
  }

  lemma StepKeepsOk(w: Handlers, a: Action, grace: nat, ttl: int)
    requires HandlersOk(w, ttl) && ttl > 0
    ensures HandlersOk(Apply(w, a, grace, ttl), ttl)
  {
    match a
    case Control(b) => if Allowed(w, b) { ControlKeepsHandlers(w, b, grace, ttl); }
    case SetController(sid, uuid) =>
      if Apply(w, a, grace, ttl) != w {
        VideoKeepsHandlers(w, w.g.past.issued[sid].vehicleId, Take(sid, uuid), w.stage[sid := Open], grace, ttl);
      }
    case ClearController(sid) =>
      if Apply(w, a, grace, ttl) != w {
        VideoKeepsHandlers(w, w.g.past.issued[sid].vehicleId, Quit(sid), w.stage[sid := Closed], grace, ttl);
      }
    case Viewer(v, op) =>
      if op.Look? || op.Join? || op.Leave? { VideoKeepsHandlers(w, v, op, w.stage, grace, ttl); }
  }

  lemma {:induction false} RunKeepsOk(w: Handlers, acts: seq<Action>, grace: nat, ttl: int)
    requires HandlersOk(w, ttl) && ttl > 0
    ensures HandlersOk(Run(w, acts, grace, ttl), ttl)
    decreases |acts|
  {
    if acts != [] {
      StepKeepsOk(w, acts[0], grace, ttl);
      RunKeepsOk(Apply(w, acts[0], grace, ttl), acts[1..], grace, ttl);
    }
  }

  lemma ControlKeepsKept(w: Handlers, b: Gateway.Action, grace: nat, ttl: int, v: string)
    requires HandlersOk(w, ttl) && ttl > 0 && KeptNow(w, v)
    ensures KeptNow(Apply(w, Control(b), grace, ttl), v)
  {
    assert RecordOk(w.g.st, w.g.past, v);
    if Allowed(w, b) && b.Advance? && b.c in w.g.clients && !w.g.clients[b.c].Done? {
      assert Gateway.ClientOk(w.g.clients[b.c], w.g.past, w.g.now, ttl);
      RoundTripKeepsKept(w.g.st, w.g.past, w.stage, w.g.clients[b.c], w.g.now, ttl, v);
    }
  }

  lemma StepKeepsKept(w: Handlers, a: Action, grace: nat, ttl: int, v: string)
    requires HandlersOk(w, ttl) && ttl > 0 && KeptNow(w, v) && (Controlled(w, v) ==> RecordLives(w, v))
    ensures KeptNow(Apply(w, a, grace, ttl), v)
  {
    match a
    case Control(b) => ControlKeepsKept(w, b, grace, ttl, v);
    case SetController(sid, uuid) =>
      if Apply(w, a, grace, ttl) != w {
        VideoKeepsVehicle(w, w.g.past.issued[sid].vehicleId, Take(sid, uuid), w.stage[sid := Open], grace, ttl, v);
      }
    case ClearController(sid) =>
      if Apply(w, a, grace, ttl) != w {
        VideoKeepsVehicle(w, w.g.past.issued[sid].vehicleId, Quit(sid), w.stage[sid := Closed], grace, ttl, v);
      }
    case Viewer(u, op) =>
      if op.Look? || op.Join? || op.Leave? { VideoKeepsVehicle(w, u, op, w.stage, grace, ttl, v); }
  }

  lemma {:induction false} RunKeepsKept(w: Handlers, acts: seq<Action>, grace: nat, ttl: int, v: string)
    requires HandlersOk(w, ttl) && ttl > 0 && KeptNow(w, v) && FreshRun(w, v, acts, grace, ttl)
    ensures HandlersOk(Run(w, acts, grace, ttl), ttl) && KeptNow(Run(w, acts, grace, ttl), v)
    decreases |acts|
  {
    if acts != [] {
      StepKeepsOk(w, acts[0], grace, ttl);
      StepKeepsKept(w, acts[0], grace, ttl, v);
      RunKeepsKept(Apply(w, acts[0], grace, ttl), acts[1..], grace, ttl, v);
    }
  }

  // The vehicle's live record names a controller that was not released, as it does after every
  // SetController.
  predicate NamesController(w: Handlers, v: string) {
    RecordLives(w, v) && w.g.st.video[v].value.controller != "" && w.g.st.video[v].value.controller !in w.g.past.released
  }

  // In every run, whatever delayed SetController or ClearController of an older session lands after a
  // new controller took over, and whatever happens to other vehicles: while this vehicle is controlled
  // its video reads ACTIVE, up to and exactly until a day has passed since its record was last saved. The
  // record need only have lived since some state in which the vehicle was not controlled, as it was not at
  // the start, or named its controller; what happened to vehicle and record before that does not matter.
  lemma ControlActiveMeansVideoActive(start: int, past: seq<Action>, acts: seq<Action>, grace: nat, ttl: int, v: string)
    requires start > 0 && ttl > 0
    requires var w := Run(Start(start), past, grace, ttl);
             (!Controlled(w, v) || NamesController(w, v)) && FreshRun(w, v, acts, grace, ttl)
    requires Controlled(Run(Start(start), past + acts, grace, ttl), v)
    ensures var w := Run(Start(start), past + acts, grace, ttl);
            Get(w.g.st, v, w.g.now).1.mode == VideoMode.Active <==> RecordLives(w, v)
  {
    var w := Run(Start(start), past, grace, ttl);
    RunConcat(Start(start), past, acts, grace, ttl);
    RunKeepsOk(Start(start), past, grace, ttl);
    assert RecordOk(w.g.st, w.g.past, v);
    RunKeepsKept(w, acts, grace, ttl, v);
    assert KeptNow(Run(w, acts, grace, ttl), v);
  }

  // What a SetController that takes effect leaves behind.
  lemma SetControllerNames(w: Handlers, sid: string, uuid: string, grace: nat, ttl: int)
    requires HandlersOk(w, ttl) && Apply(w, SetController(sid, uuid), grace, ttl) != w
    ensures var w', v := Apply(w, SetController(sid, uuid), grace, ttl), w.g.past.issued[sid].vehicleId;
            && NamesController(w', v) && w'.g.st.video[v].value.controller == sid && w'.stage == w.stage[sid := Open]
            && w'.g.st.lease == w.g.st.lease && w'.g.st.index == w.g.st.index
  {
    var v := w.g.past.issued[sid].vehicleId;
    assert RecordOk(w.g.st, w.g.past, v);
    TakeHolds(w.g.st, v, Take(sid, uuid), grace, w.g.now);
    DoControllers(w.g.st, v, Take(sid, uuid), grace, w.g.now);
  }

  // Between the acquire script and SetController the lease is live and the video may still be STANDBY.
  lemma VideoLagsUntilSetController(start: int, ttl: int, grace: nat)
    requires start > 0 && ttl > 0
    ensures var r := ControlSession("s", "car", "ann", "key", SessionStatus.Active, start, start + ttl);
            var w := Run(Start(start), [Control(Gateway.CallAcquire(0, r)), Control(Gateway.Advance(0))], grace, ttl);
            && Lookup(w.g.st.lease, "car", w.g.now) == Some(r) && w.stage == map["s" := Setting]
            && Get(w.g.st, "car", w.g.now).1.mode == VideoMode.Standby
  {
    var r := ControlSession("s", "car", "ann", "key", SessionStatus.Active, start, start + ttl);
    var a, b := Control(Gateway.CallAcquire(0, r)), Control(Gateway.Advance(0));
    var w1 := Apply(Start(start), a, grace, ttl);
    assert [a, b][1..] == [b] && [b][1..] == [];
    assert Run(w1, [b], grace, ttl) == Apply(w1, b, grace, ttl);
  }
}
