// One vehicle, on a clock of its own, and every gateway: whom the vehicle obeys against who holds the lease.
module EndToEnd {
  import opened Types
  import opened ControlLease
  import opened VehicleVerifier
  import Gateway = ControlSystem
  import Vehicle = VehicleNode

  // A gateway's answer to the vehicle, and the instant it read the lease.
  datatype Answer = Answer(response: Response, readAt: int)

  datatype World = World(
    g: Gateway.Sys,
    n: Vehicle.Node,
    answer: Option<Answer>,  // read for the refresh in progress, not yet arrived
    readAt: int)             // when the cached session was read, by the gateway's clock

  datatype Action =
    | Pass(d: nat)
    | Gateways(step: Gateway.Action)
    | Begin
    | ServerRead(keyDecodes: bool)
    | End(arrives: bool)
    | Local(act: Vehicle.Action)

  // The gateway's clock shows `now`.
  function Start(now: int, c: Vehicle.Config): World {
    World(Gateway.Init(now), Vehicle.Start(now - c.behind), None, now)
  }

  // handleGetControl: the lease as it is at this instant.
  function ReadLease(st: Store, v: string, now: int, keyDecodes: bool): Response {
    match Lookup(st.lease, v, now)
    case None => Missing
    case Some(s) => Reply(s, keyDecodes)
  }

  function Apply(w: World, a: Action, c: Vehicle.Config, ttl: int): World {
    match a
    case Pass(d) =>
      if Vehicle.InTime(w.n, w.n.now + d, c) then
        w.(g := w.g.(now := w.g.now + d), n := w.n.(now := w.n.now + d))
      else w
    case Gateways(b) =>
      if b.Tick? || (b.CallAcquire? && b.session.publicKey != c.keyOf(b.session.sessionId)) then w
      else w.(g := Gateway.Apply(w.g, b, ttl))
    case Begin =>
      w.(n := Vehicle.Apply(w.n, Vehicle.BeginRefresh, c), answer := if w.n.phase.Waiting? then w.answer else None)
    case ServerRead(keyDecodes) =>
      if w.n.phase.Waiting? && w.answer.None? then
        w.(answer := Some(Answer(ReadLease(w.g.st, c.limits.vehicleId, w.g.now, keyDecodes), w.g.now)))
      else w
    case End(arrives) =>
      if w.n.phase.Waiting? then
        var r := if arrives && w.answer.Some? then w.answer.value.response else Failed;
        World(w.g, Vehicle.Apply(w.n, Vehicle.EndRefresh(r), c), None, if w.answer.Some? then w.answer.value.readAt else w.readAt)
      else w
    case Local(b) =>
      if b.Send? || b.Deliver? || b.Check? then w.(n := Vehicle.Apply(w.n, b, c)) else w
  }

  function Run(w: World, acts: seq<Action>, c: Vehicle.Config, ttl: int): World
    decreases |acts|
  {
    if acts == [] then w else Run(Apply(w, acts[0], c, ttl), acts[1..], c, ttl)
  }

  lemma {:induction false} RunConcat(w: World, a: seq<Action>, b: seq<Action>, c: Vehicle.Config, ttl: int)
    ensures Run(w, a + b, c, ttl) == Run(Run(w, a, c, ttl), b, c, ttl)
    decreases |a|
  {
    if a == [] {
      assert a + b == b;
    } else {
      assert (a + b)[1..] == a[1..] + b;
      RunConcat(Apply(w, a[0], c, ttl), a[1..], b, c, ttl);
    }
  }

  // ---------- what a copy of a lease record is still worth ----------

  ghost predicate Holds(g: Gateway.Sys, v: string, s: ControlSession) {
    v in g.st.lease && g.st.lease[v].value.sessionId == s.sessionId && s.expiresAt <= g.st.lease[v].deadline
  }

  // The session of a record read at `at` was released after the read, or the record itself has run out,
  // or its session holds the lease for at least as long as the record says.
  ghost predicate Backed(g: Gateway.Sys, v: string, s: ControlSession, at: int) {
    && s.sessionId in g.past.rank && s.sessionId in g.past.issued
    && s == g.past.issued[s.sessionId].(expiresAt := s.expiresAt) && s.vehicleId == v
    && at <= g.now
    && (s.sessionId in g.past.released ==> at <= g.past.released[s.sessionId])
    && (s.sessionId in g.past.released || g.now > s.expiresAt || Holds(g, v, s))
  }

  lemma LeaseMoves(g: Gateway.Sys, b: Gateway.Action, ttl: int, v: string, s: ControlSession)
    requires Gateway.Inv(g, ttl) && ttl > 0 && !b.Tick? && Holds(g, v, s)
    ensures var g' := Gateway.Apply(g, b, ttl);
            Holds(g', v, s) || g.now > s.expiresAt || s.sessionId in g'.past.released
  {
    assert Gateway.LeaseOk(v, g.st.lease[v], g.past, g.now, ttl);
    if b.Advance? && b.c in g.clients && !g.clients[b.c].Done? {
      assert Gateway.ClientOk(g.clients[b.c], g.past, g.now, ttl);
      RoundTripMovesLease(g.st, g.past, g.clients[b.c], g.now, ttl, v, s);
    }
  }

  lemma RoundTripMovesLease(st: Store, h: Gateway.History, c: Client, now: int, ttl: int, v: string, s: ControlSession)
    requires ttl > 0 && !c.Done? && v in st.lease && st.lease[v].value.sessionId == s.sessionId
    requires s.expiresAt <= st.lease[v].deadline <= now + ttl
    ensures var (c', st') := ClientStep(c, st, now, ttl);
            || (v in st'.lease && st'.lease[v].value.sessionId == s.sessionId && s.expiresAt <= st'.lease[v].deadline)
            || now > s.expiresAt
            || s.sessionId in Gateway.Record(h, c, c', now).released
  {
  }

  lemma RoundTripRecords(st: Store, h: Gateway.History, c: Client, now: int, ttl: int, sid: string)
    requires c.RunningScript? && c.vehicle in st.lease && st.lease[c.vehicle].value.sessionId !in h.released
    ensures var released := Gateway.Record(h, c, ClientStep(c, st, now, ttl).0, now).released;
            && (sid in released ==> released[sid] == if sid in h.released then h.released[sid] else now)
            && (sid in h.released ==> sid in released)
  {
  }

  // A session enters the released history at the instant it leaves Redis, and its entry never changes.
  lemma ReleaseIsRecordedOnce(g: Gateway.Sys, b: Gateway.Action, ttl: int, sid: string)
    requires Gateway.Inv(g, ttl) && ttl > 0 && !b.Tick?
    ensures var g' := Gateway.Apply(g, b, ttl);
            sid in g'.past.released ==>
              g'.past.released[sid] == if sid in g.past.released then g.past.released[sid] else g.now
    ensures sid in g.past.released ==> sid in Gateway.Apply(g, b, ttl).past.released
  {
    if b.Advance? && b.c in g.clients && !g.clients[b.c].Done? {
      var c := g.clients[b.c];
      if c.RunningScript? && c.vehicle in g.st.lease {
        assert Gateway.LeaseOk(c.vehicle, g.st.lease[c.vehicle], g.past, g.now, ttl);
        RoundTripRecords(g.st, g.past, c, g.now, ttl, sid);
      }
    }
  }

  lemma HistoryGrows(g: Gateway.Sys, b: Gateway.Action, ttl: int, sid: string)
    requires Gateway.Inv(g, ttl) && ttl > 0 && sid in g.past.issued && sid in g.past.rank
    ensures var h := Gateway.Apply(g, b, ttl).past;
            && sid in h.issued && h.issued[sid] == g.past.issued[sid]
            && sid in h.rank && h.rank[sid] == g.past.rank[sid]
  {
    if b.Advance? && b.c in g.clients && !g.clients[b.c].Done? {
      assert Gateway.ClientOk(g.clients[b.c], g.past, g.now, ttl);
    }
  }

  lemma StaysBacked(g: Gateway.Sys, b: Gateway.Action, ttl: int, v: string, s: ControlSession, at: int)
    requires Gateway.Inv(g, ttl) && ttl > 0 && !b.Tick? && Backed(g, v, s, at)
    ensures Backed(Gateway.Apply(g, b, ttl), v, s, at)
  {
    HistoryGrows(g, b, ttl, s.sessionId);
    ReleaseIsRecordedOnce(g, b, ttl, s.sessionId);
    if Holds(g, v, s) { LeaseMoves(g, b, ttl, v, s); }
  }

  // ---------- the invariant ----------

  ghost predicate Known(g: Gateway.Sys, v: string, sid: string) {
    sid in g.past.rank && sid in g.past.issued && g.past.issued[sid].vehicleId == v
  }

  // Whoever was obeyed so far won the lease no later than this session did.
  ghost predicate NoLater(w: World, sid: string) {
    sid in w.g.past.rank &&
    forall i :: 0 <= i < |w.n.log| ==>
      w.n.log[i].session.sessionId in w.g.past.rank
      && w.g.past.rank[w.n.log[i].session.sessionId] <= w.g.past.rank[sid]
  }

  ghost predicate LogKnown(w: World, v: string) {
    && (forall i :: 0 <= i < |w.n.log| ==> Known(w.g, v, w.n.log[i].session.sessionId))
    && (forall i, j :: 0 <= i < j < |w.n.log| ==>
          w.g.past.rank[w.n.log[i].session.sessionId] <= w.g.past.rank[w.n.log[j].session.sessionId])
  }

  ghost predicate CacheOk(w: World, c: Vehicle.Config) {
    w.n.v.session.Some? ==>
      var s := w.n.v.session.value;
      && w.n.phase.Sleeping? && w.n.phase.wake + c.behind <= w.readAt + c.timeout + c.interval
      && Backed(w.g, c.limits.vehicleId, s, w.readAt) && NoLater(w, s.sessionId)
  }

  ghost predicate AnswerOk(w: World, c: Vehicle.Config) {
    w.answer.Some? ==>
      && w.n.phase.Waiting? && w.n.phase.began + c.behind <= w.answer.value.readAt
      && (w.answer.value.response.Reply? ==>
            var s := w.answer.value.response.session;
            Backed(w.g, c.limits.vehicleId, s, w.answer.value.readAt) && NoLater(w, s.sessionId))
  }

  ghost predicate PhaseOk(n: Vehicle.Node, c: Vehicle.Config) {
    match n.phase
    case Waiting(began, _, _) => began <= n.now <= began + c.timeout && n.v.session.None?
    case Sleeping(wake) => n.now <= wake + c.slack
  }

  ghost predicate KeysBound(g: Gateway.Sys, c: Vehicle.Config) {
    forall sid :: sid in g.past.issued ==> g.past.issued[sid].publicKey == c.keyOf(sid)
  }

  ghost predicate WorldOk(w: World, c: Vehicle.Config, ttl: int) {
    && Gateway.Inv(w.g, ttl) && w.g.now == w.n.now + c.behind && KeysBound(w.g, c)
    && PhaseOk(w.n, c) && LogKnown(w, c.limits.vehicleId) && CacheOk(w, c) && AnswerOk(w, c)
  }

  lemma GatewayKeepsKeys(g: Gateway.Sys, b: Gateway.Action, c: Vehicle.Config, ttl: int)
    requires KeysBound(g, c) && (b.CallAcquire? ==> b.session.publicKey == c.keyOf(b.session.sessionId))
    ensures KeysBound(Gateway.Apply(g, b, ttl), c)
  {
  }

  // The order in which sessions won their lease never changes, so neither does what it says of the log.
  lemma GatewayKeepsLog(w: World, b: Gateway.Action, v: string, ttl: int)
    requires Gateway.Inv(w.g, ttl) && ttl > 0 && LogKnown(w, v)
    ensures var w' := w.(g := Gateway.Apply(w.g, b, ttl));
            LogKnown(w', v) && forall sid :: sid in w.g.past.issued && NoLater(w, sid) ==> NoLater(w', sid)
  {
    forall sid | sid in w.g.past.issued && sid in w.g.past.rank
      ensures var h := Gateway.Apply(w.g, b, ttl).past;
              && sid in h.issued && h.issued[sid] == w.g.past.issued[sid]
              && sid in h.rank && h.rank[sid] == w.g.past.rank[sid]
    {
      HistoryGrows(w.g, b, ttl, sid);
    }
    forall i | 0 <= i < |w.n.log| ensures Known(Gateway.Apply(w.g, b, ttl), v, w.n.log[i].session.sessionId) {
      assert Known(w.g, v, w.n.log[i].session.sessionId);
    }
  }

  lemma GatewayKeepsWorld(w: World, b: Gateway.Action, c: Vehicle.Config, ttl: int)
    requires WorldOk(w, c, ttl) && ttl > 0 && !b.Tick?
    requires b.CallAcquire? ==> b.session.publicKey == c.keyOf(b.session.sessionId)
    ensures WorldOk(w.(g := Gateway.Apply(w.g, b, ttl)), c, ttl)
  {
    Gateway.StepKeepsInv(w.g, b, ttl);
    GatewayKeepsKeys(w.g, b, c, ttl);
    GatewayKeepsLog(w, b, c.limits.vehicleId, ttl);
    GatewayKeepsCopies(w, b, c, ttl);
  }

  lemma GatewayKeepsCopies(w: World, b: Gateway.Action, c: Vehicle.Config, ttl: int)
    requires Gateway.Inv(w.g, ttl) && ttl > 0 && !b.Tick?
    requires LogKnown(w, c.limits.vehicleId) && CacheOk(w, c) && AnswerOk(w, c)
    ensures var w' := w.(g := Gateway.Apply(w.g, b, ttl)); CacheOk(w', c) && AnswerOk(w', c)
  {
    GatewayKeepsLog(w, b, c.limits.vehicleId, ttl);
    if w.n.v.session.Some? { StaysBacked(w.g, b, ttl, c.limits.vehicleId, w.n.v.session.value, w.readAt); }
    if w.answer.Some? && w.answer.value.response.Reply? {
      StaysBacked(w.g, b, ttl, c.limits.vehicleId, w.answer.value.response.session, w.answer.value.readAt);
    }
  }

  // A live lease read now is backed, and nobody obeyed before won the lease later.
  lemma FreshReadIsBacked(w: World, c: Vehicle.Config, ttl: int)
    requires WorldOk(w, c, ttl)
    ensures var s := Lookup(w.g.st.lease, c.limits.vehicleId, w.g.now);
            s.Some? ==> Backed(w.g, c.limits.vehicleId, s.value, w.g.now) && NoLater(w, s.value.sessionId)
  {
    var v := c.limits.vehicleId;
    if v in w.g.st.lease {
      assert Gateway.LeaseOk(v, w.g.st.lease[v], w.g.past, w.g.now, ttl);
    }
  }

  // What the vehicle's own invariants need of the gateway state; time may pass in it.
  lemma CopiesOutliveTime(w: World, d: nat, c: Vehicle.Config)
    requires LogKnown(w, c.limits.vehicleId) && CacheOk(w, c) && AnswerOk(w, c) && PhaseOk(w.n, c)
    requires Vehicle.InTime(w.n, w.n.now + d, c)
    ensures var w' := w.(g := w.g.(now := w.g.now + d), n := w.n.(now := w.n.now + d));
            LogKnown(w', c.limits.vehicleId) && CacheOk(w', c) && AnswerOk(w', c) && PhaseOk(w'.n, c)
  {
  }

  lemma PassKeepsWorld(w: World, d: nat, c: Vehicle.Config, ttl: int)
    requires WorldOk(w, c, ttl) && ttl > 0
    ensures WorldOk(Apply(w, Pass(d), c, ttl), c, ttl)
  {
    if Vehicle.InTime(w.n, w.n.now + d, c) {
      Gateway.TickKeepsInv(w.g, d, ttl);
      CopiesOutliveTime(w, d, c);
    }
  }

  // Sending, delivering and checking leave the refresh alone; a delivery can only drop the cached
  // session or log a command under it.
  lemma LocalKeepsCopies(w: World, b: Vehicle.Action, c: Vehicle.Config, ttl: int)
    requires LogKnown(w, c.limits.vehicleId) && CacheOk(w, c) && AnswerOk(w, c) && PhaseOk(w.n, c)
    ensures var w' := Apply(w, Local(b), c, ttl);
            && w'.g == w.g && w'.n.now == w.n.now
            && LogKnown(w', c.limits.vehicleId) && CacheOk(w', c) && AnswerOk(w', c) && PhaseOk(w'.n, c)
  {
    if b.Deliver? { DeliverKeepsCopies(w, b.m, b.identity, c, ttl); }
  }

  lemma DeliverKeepsCopies(w: World, m: Message, identity: string, c: Vehicle.Config, ttl: int)
    requires LogKnown(w, c.limits.vehicleId) && CacheOk(w, c) && AnswerOk(w, c) && PhaseOk(w.n, c)
    ensures var w' := Apply(w, Local(Vehicle.Deliver(m, identity)), c, ttl);
            && w'.g == w.g && w'.n.now == w.n.now
            && LogKnown(w', c.limits.vehicleId) && CacheOk(w', c) && AnswerOk(w', c) && PhaseOk(w'.n, c)
  {
    AcceptsExactly(w.n.v, m, identity, w.n.now, Vehicle.SignedBy(w.n.books), c.limits);
    var w' := Apply(w, Local(Vehicle.Deliver(m, identity)), c, ttl);
    assert w'.n.log == w.n.log ||
           (w.n.v.session.Some? && w'.n.v.session == w.n.v.session && |w'.n.log| == |w.n.log| + 1
            && w'.n.log[..|w.n.log|] == w.n.log && w'.n.log[|w.n.log|].session == w.n.v.session.value);
  }

  lemma LocalKeepsWorld(w: World, b: Vehicle.Action, c: Vehicle.Config, ttl: int)
    requires WorldOk(w, c, ttl)
    ensures WorldOk(Apply(w, Local(b), c, ttl), c, ttl)
  {
    LocalKeepsCopies(w, b, c, ttl);
  }

  lemma StepKeepsWorld(w: World, a: Action, c: Vehicle.Config, ttl: int)
    requires WorldOk(w, c, ttl) && ttl > 0
    ensures WorldOk(Apply(w, a, c, ttl), c, ttl)
  {
    match a
    case Pass(d) => PassKeepsWorld(w, d, c, ttl);
    case Gateways(b) => if Apply(w, a, c, ttl) != w { GatewayKeepsWorld(w, b, c, ttl); }
    case Begin =>
    case ServerRead(_) => FreshReadIsBacked(w, c, ttl);
    case End(_) =>
    case Local(b) => LocalKeepsWorld(w, b, c, ttl);
  }

  lemma {:induction false} RunKeepsWorld(w: World, acts: seq<Action>, c: Vehicle.Config, ttl: int)
    requires WorldOk(w, c, ttl) && ttl > 0
    ensures WorldOk(Run(w, acts, c, ttl), c, ttl)
    decreases |acts|
  {
    if acts != [] {
      StepKeepsWorld(w, acts[0], c, ttl);
      RunKeepsWorld(Apply(w, acts[0], c, ttl), acts[1..], c, ttl);
    }
  }

  // A refresh ends whatever was or was not answered: the key in a lease record is always the one its
  // session was created with, so no real answer is outside the vehicle model's actions.
  lemma RefreshesEnd(w: World, arrives: bool, c: Vehicle.Config, ttl: int)
    requires WorldOk(w, c, ttl) && w.n.phase.Waiting?
    ensures Apply(w, End(arrives), c, ttl).n.phase == Vehicle.Sleeping(w.n.now + c.interval)
  {
  }

  // ---------- the end-to-end theorems ----------

  predicate Accepts(w: World, m: Message, identity: string, c: Vehicle.Config) {
    VerifyPacket(w.n.v, m, identity, w.n.now, Vehicle.SignedBy(w.n.books), c.limits).1.Some?
  }

  // Whom the vehicle obeys in this state: the holder of the live lease; or a session released after the
  // read that loaded it, no longer ago than one timeout, one pause and the slack; or, on a vehicle whose
  // clock is behind, one whose cached record ran out no longer ago than that.
  predicate Authorized(w: World, sid: string, identity: string, c: Vehicle.Config) {
    var lease := Lookup(w.g.st.lease, c.limits.vehicleId, w.g.now);
    || (lease.Some? && lease.value.sessionId == sid && identity == "operator-" + lease.value.operatorId
        && lease.value.status == SessionStatus.Active)
    || (sid in w.g.past.released
        && w.readAt <= w.g.past.released[sid] <= w.g.now <= w.g.past.released[sid] + c.timeout + c.interval + c.slack)
    || (w.n.v.session.Some? && w.n.v.session.value.sessionId == sid
        && w.n.v.session.value.expiresAt < w.g.now <= w.n.v.session.value.expiresAt + c.behind)
  }

  lemma AcceptsOnlyAuthorized(w: World, c: Vehicle.Config, ttl: int, m: Message, identity: string)
    requires WorldOk(w, c, ttl) && Accepts(w, m, identity, c)
    ensures m.Json? && Authorized(w, m.packet.sessionId, identity, c)
  {
    AcceptsExactly(w.n.v, m, identity, w.n.now, Vehicle.SignedBy(w.n.books), c.limits);
    var s := w.n.v.session.value;
    if Holds(w.g, c.limits.vehicleId, s) {
      assert Gateway.LeaseOk(c.limits.vehicleId, w.g.st.lease[c.limits.vehicleId], w.g.past, w.g.now, ttl);
    }
  }

  // In every interleaving of gateways, expiry, refreshes and packets a command is accepted only under
  // such a session.
  lemma EndToEndAuthority(start: int, acts: seq<Action>, c: Vehicle.Config, ttl: int, m: Message, identity: string)
    requires ttl > 0
    requires Accepts(Run(Start(start, c), acts, c, ttl), m, identity, c)
    ensures m.Json? && Authorized(Run(Start(start, c), acts, c, ttl), m.packet.sessionId, identity, c)
  {
    RunKeepsWorld(Start(start, c), acts, c, ttl);
    AcceptsOnlyAuthorized(Run(Start(start, c), acts, c, ttl), c, ttl, m, identity);
  }

  // When a record that has run out by the gateway's clock is still in use, its lease may have lapsed in
  // Redis too; it did so no longer ago than the vehicle's clock is behind, for no record ever promises more
  // than the lease has.
  lemma LapsedNoLongerThanBehind(w: World, v: string, c: Vehicle.Config, ttl: int)
    requires WorldOk(w, c, ttl) && v in w.g.st.lease
    requires w.n.v.session.Some? && w.g.st.lease[v].value == w.n.v.session.value
    requires w.n.now <= w.n.v.session.value.expiresAt && Lookup(w.g.st.lease, v, w.g.now).None?
    ensures w.g.now <= w.g.st.lease[v].deadline + c.behind
  {
    assert Gateway.LeaseOk(v, w.g.st.lease[v], w.g.past, w.g.now, ttl);
  }

  // The commands a vehicle accepts over any run come in one block per session: once a command of
  // another session was accepted, no command of the first is ever accepted again.
  lemma HandoverIsOneWay(start: int, acts: seq<Action>, c: Vehicle.Config, ttl: int, i: nat, j: nat, k: nat)
    requires ttl > 0
    requires i < j < k < |Run(Start(start, c), acts, c, ttl).n.log|
    ensures var log := Run(Start(start, c), acts, c, ttl).n.log;
            log[i].session.sessionId == log[k].session.sessionId ==> log[j].session.sessionId == log[i].session.sessionId
  {
    RunKeepsWorld(Start(start, c), acts, c, ttl);
    var w := Run(Start(start, c), acts, c, ttl);
    assert Gateway.OneWinner(w.g.past.rank, w.n.log[i].session.sessionId, w.n.log[j].session.sessionId);
  }

  // ---------- the vehicle's own theorems hold here too ----------

  // What one action of the composed system is to the vehicle.
  function VehicleActs(w: World, a: Action, c: Vehicle.Config, ttl: int): seq<Vehicle.Action> {
    match a
    case Pass(d) => [Vehicle.Tick(d)]
    case Begin => [Vehicle.BeginRefresh]
    case End(arrives) =>
      if w.n.phase.Waiting?
      then [Vehicle.EndRefresh(if arrives && w.answer.Some? then w.answer.value.response else Failed)] else []
    case Local(b) => if b.Send? || b.Deliver? || b.Check? then [b] else []
    case _ => []
  }

  function AllVehicleActs(w: World, acts: seq<Action>, c: Vehicle.Config, ttl: int): seq<Vehicle.Action>
    decreases |acts|
  {
    if acts == [] then []
    else VehicleActs(w, acts[0], c, ttl) + AllVehicleActs(Apply(w, acts[0], c, ttl), acts[1..], c, ttl)
  }

  lemma OneVehicleStep(w: World, a: Action, c: Vehicle.Config, ttl: int)
    ensures var acts := VehicleActs(w, a, c, ttl);
            && |acts| <= 1
            && Apply(w, a, c, ttl).n == if acts == [] then w.n else Vehicle.Apply(w.n, acts[0], c)
  {
  }

  // The vehicle of the composed system makes a run of the vehicle model, so what is proved of every
  // vehicle run (replay, authenticity, braking) holds of it.
  lemma {:induction false} WorldRunsAreVehicleRuns(w: World, acts: seq<Action>, c: Vehicle.Config, ttl: int)
    ensures Vehicle.Run(w.n, AllVehicleActs(w, acts, c, ttl), c) == Run(w, acts, c, ttl).n
    decreases |acts|
  {
    if acts != [] {
      var w1 := Apply(w, acts[0], c, ttl);
      var first, rest := VehicleActs(w, acts[0], c, ttl), AllVehicleActs(w1, acts[1..], c, ttl);
      OneVehicleStep(w, acts[0], c, ttl);
      WorldRunsAreVehicleRuns(w1, acts[1..], c, ttl);
      if first != [] { assert (first + rest)[1..] == rest; } else { assert first + rest == rest; }
    }
  }
}
