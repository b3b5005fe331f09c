// With renewals that come in time, no reload after a local expiry can replay: the counter needs no gap.
module PromptRenewal {
  import opened Types
  import opened ControlLease
  import opened VehicleVerifier
  import opened EndToEnd
  import opened ReplaySafety
  import Gateway = ControlSystem
  import Vehicle = VehicleNode

  // The longest a cached record can be in use after its read, by a clock that may be ahead.
  function RefreshGap(c: Vehicle.Config): nat {
    c.timeout + c.interval + c.slack + if c.behind < 0 then -c.behind else 0
  }

  // A granted renewal of the vehicle's lease finds a record that still outlives one refresh gap.
  predicate RenewsInTime(w: World, a: Action, c: Vehicle.Config, ttl: int) {
    a.Gateways? && a.step.Advance? && a.step.c in w.g.clients ==>
      var client := w.g.clients[a.step.c];
      client.RunningScript? && client.req.Renew? && client.vehicle == c.limits.vehicleId
      && client.vehicle in w.g.st.lease && ClientStep(client, w.g.st, w.g.now, ttl).0 == Done(Ok) ==>
        w.g.now + RefreshGap(c) <= w.g.st.lease[client.vehicle].value.expiresAt
  }

  ghost predicate TimelyRun(w: World, acts: seq<Action>, c: Vehicle.Config, ttl: int)
    decreases |acts|
  {
    acts == [] || (RenewsInTime(w, acts[0], c, ttl) && TimelyRun(Apply(w, acts[0], c, ttl), acts[1..], c, ttl))
  }

  // The lease is still this session's, with another expiry.
  predicate Renewed(st: Store, v: string, s: ControlSession) {
    v in st.lease && st.lease[v].value.sessionId == s.sessionId && st.lease[v].value.expiresAt != s.expiresAt
  }

  // A copy of the lease record read at `at` is the record still, or outlives its own use.
  ghost predicate Current(g: Gateway.Sys, v: string, s: ControlSession, at: int, gap: int) {
    && s.sessionId in g.past.rank && at <= g.now
    && (Renewed(g.st, v, s) ==> at + gap <= s.expiresAt)
  }

  // The session's record has run out by the vehicle's clock and, renewals being timely, will never be renewed.
  ghost predicate Dead(g: Gateway.Sys, v: string, sid: string, clock: int) {
    sid in g.past.rank && (v in g.st.lease && g.st.lease[v].value.sessionId == sid ==> g.st.lease[v].value.expiresAt < clock)
  }

  ghost predicate AnswerDead(w: World, sid: string) {
    w.answer.Some? && w.answer.value.response.Reply? && w.answer.value.response.session.sessionId == sid ==>
      w.answer.value.response.session.expiresAt < w.n.now
  }

  function LastRefresh(p: Vehicle.Phase): int {
    match p
    case Sleeping(wake) => wake
    case Waiting(began, _, _) => began
  }

  ghost predicate CopiesCurrent(w: World, c: Vehicle.Config) {
    && (w.n.v.session.Some? ==> Current(w.g, c.limits.vehicleId, w.n.v.session.value, w.readAt, RefreshGap(c)))
    && (w.answer.Some? && w.answer.value.response.Reply? ==>
          Current(w.g, c.limits.vehicleId, w.answer.value.response.session, w.answer.value.readAt, RefreshGap(c)))
  }

  // What was lately accepted under a session that then expired locally belongs to a dead session.
  ghost predicate WipedIsDead(w: World, c: Vehicle.Config) {
    w.n.wiped ==>
      && w.n.v.session.None?
      && forall e :: e in w.n.log ==>
           || e.at + c.interval <= LastRefresh(w.n.phase)
           || (Dead(w.g, c.limits.vehicleId, e.packet.sessionId, w.n.now) && AnswerDead(w, e.packet.sessionId))
  }

  lemma RoundTripKeepsCurrent(st: Store, h: Gateway.History, cl: Client, now: int, ttl: int, v: string, s: ControlSession, at: int, gap: int)
    requires !cl.Done? && Gateway.ClientOk(cl, h, now, ttl) && s.sessionId in h.rank && at <= now
    requires Renewed(st, v, s) ==> at + gap <= s.expiresAt
    requires cl.RunningScript? && cl.req.Renew? && cl.vehicle == v && v in st.lease && ClientStep(cl, st, now, ttl).0 == Done(Ok) ==>
               now + gap <= st.lease[v].value.expiresAt
    ensures Renewed(ClientStep(cl, st, now, ttl).1, v, s) ==> at + gap <= s.expiresAt
  {
  }

  lemma RoundTripKeepsDead(st: Store, h: Gateway.History, cl: Client, now: int, ttl: int, v: string, sid: string, gap: nat, clock: int)
    requires !cl.Done? && Gateway.ClientOk(cl, h, now, ttl) && sid in h.rank && clock <= now + gap
    requires v in st.lease && st.lease[v].value.sessionId == sid ==> st.lease[v].value.expiresAt < clock
    requires cl.RunningScript? && cl.req.Renew? && cl.vehicle == v && v in st.lease && ClientStep(cl, st, now, ttl).0 == Done(Ok) ==>
               now + gap <= st.lease[v].value.expiresAt
    ensures var st' := ClientStep(cl, st, now, ttl).1;
            v in st'.lease && st'.lease[v].value.sessionId == sid ==> st'.lease[v].value.expiresAt < clock
  {
  }

  lemma RankGrows(g: Gateway.Sys, b: Gateway.Action, ttl: int, sid: string)
    requires sid in g.past.rank
    ensures sid in Gateway.Apply(g, b, ttl).past.rank
  {
  }

  lemma GatewayKeepsCurrent(w: World, b: Gateway.Action, c: Vehicle.Config, ttl: int, s: ControlSession, at: int)
    requires Gateway.Inv(w.g, ttl) && !b.Tick? && RenewsInTime(w, Gateways(b), c, ttl)
    requires Current(w.g, c.limits.vehicleId, s, at, RefreshGap(c))
    ensures Current(Gateway.Apply(w.g, b, ttl), c.limits.vehicleId, s, at, RefreshGap(c))
  {
    RankGrows(w.g, b, ttl, s.sessionId);
    if b.Advance? && b.c in w.g.clients && !w.g.clients[b.c].Done? {
      assert Gateway.ClientOk(w.g.clients[b.c], w.g.past, w.g.now, ttl);
      RoundTripKeepsCurrent(w.g.st, w.g.past, w.g.clients[b.c], w.g.now, ttl, c.limits.vehicleId, s, at, RefreshGap(c));
    }
  }

  lemma GatewayKeepsDead(w: World, b: Gateway.Action, c: Vehicle.Config, ttl: int, sid: string)
    requires Gateway.Inv(w.g, ttl) && !b.Tick? && RenewsInTime(w, Gateways(b), c, ttl)
    requires w.g.now == w.n.now + c.behind && Dead(w.g, c.limits.vehicleId, sid, w.n.now)
    ensures Dead(Gateway.Apply(w.g, b, ttl), c.limits.vehicleId, sid, w.n.now)
  {
    RankGrows(w.g, b, ttl, sid);
    if b.Advance? && b.c in w.g.clients && !w.g.clients[b.c].Done? {
      assert Gateway.ClientOk(w.g.clients[b.c], w.g.past, w.g.now, ttl);
      RoundTripKeepsDead(w.g.st, w.g.past, w.g.clients[b.c], w.g.now, ttl, c.limits.vehicleId, sid, RefreshGap(c), w.n.now);
    }
  }

  lemma GatewaysKeepTimely(w: World, b: Gateway.Action, c: Vehicle.Config, ttl: int)
    requires WorldOk(w, c, ttl) && CopiesCurrent(w, c) && WipedIsDead(w, c) && RenewsInTime(w, Gateways(b), c, ttl)
    ensures var w' := Apply(w, Gateways(b), c, ttl); CopiesCurrent(w', c) && WipedIsDead(w', c)
  {
    var w' := Apply(w, Gateways(b), c, ttl);
    if w' != w {
      if w.n.v.session.Some? { GatewayKeepsCurrent(w, b, c, ttl, w.n.v.session.value, w.readAt); }
      if w.answer.Some? && w.answer.value.response.Reply? {
        GatewayKeepsCurrent(w, b, c, ttl, w.answer.value.response.session, w.answer.value.readAt);
      }
      forall sid | Dead(w.g, c.limits.vehicleId, sid, w.n.now) ensures Dead(w'.g, c.limits.vehicleId, sid, w.n.now) {
        GatewayKeepsDead(w, b, c, ttl, sid);
      }
    }
  }

  // A session that a delivery finds expired is dead: had it been renewed since its record was read, the
  // record would have outlived this refresh.
  lemma ExpiredIsDead(w: World, c: Vehicle.Config, ttl: int)
    requires WorldOk(w, c, ttl) && CopiesCurrent(w, c) && w.n.v.session.Some? && w.n.now > w.n.v.session.value.expiresAt
    ensures Dead(w.g, c.limits.vehicleId, w.n.v.session.value.sessionId, w.n.now) && w.answer.None?
  {
  }

  lemma DeliverKeepsTimely(w: World, m: Message, identity: string, c: Vehicle.Config, ttl: int)
    requires WorldOk(w, c, ttl) && PauseOk(w.n, c) && CopiesCurrent(w, c) && WipedIsDead(w, c)
    ensures var w' := Apply(w, Local(Vehicle.Deliver(m, identity)), c, ttl); CopiesCurrent(w', c) && WipedIsDead(w', c)
  {
    var w' := Apply(w, Local(Vehicle.Deliver(m, identity)), c, ttl);
    AcceptsExactly(w.n.v, m, identity, w.n.now, Vehicle.SignedBy(w.n.books), c.limits);
    if w'.n.wiped && !w.n.wiped {
      ExpiredIsDead(w, c, ttl);
      assert w'.n.log == w.n.log && w'.n.phase == w.n.phase && w.n.phase.Sleeping?;
      forall e | e in w.n.log && e.at + c.interval > LastRefresh(w.n.phase)
        ensures e.packet.sessionId == w.n.v.session.value.sessionId
      {
        assert Covered(e, w.n.phase.wake, Vehicle.SessionId(w.n.v), w.n.v.lastSequence, c);
      }
    }
  }

  lemma PassKeepsTimely(w: World, d: nat, c: Vehicle.Config, ttl: int)
    requires CopiesCurrent(w, c) && WipedIsDead(w, c)
    ensures var w' := Apply(w, Pass(d), c, ttl); CopiesCurrent(w', c) && WipedIsDead(w', c)
  {
  }

  lemma RefreshKeepsTimely(w: World, a: Action, c: Vehicle.Config, ttl: int)
    requires WorldOk(w, c, ttl) && CopiesCurrent(w, c) && WipedIsDead(w, c) && (a.Begin? || a.End? || a.ServerRead?)
    ensures var w' := Apply(w, a, c, ttl); CopiesCurrent(w', c) && WipedIsDead(w', c)
  {
    if a.ServerRead? { FreshReadIsBacked(w, c, ttl); }
  }

  lemma StepKeepsTimely(w: World, a: Action, c: Vehicle.Config, ttl: int)
    requires WorldOk(w, c, ttl) && PauseOk(w.n, c) && CopiesCurrent(w, c) && WipedIsDead(w, c) && RenewsInTime(w, a, c, ttl)
    ensures var w' := Apply(w, a, c, ttl); CopiesCurrent(w', c) && WipedIsDead(w', c)
  {
    match a
    case Pass(d) => PassKeepsTimely(w, d, c, ttl);
    case Gateways(b) => GatewaysKeepTimely(w, b, c, ttl);
    case Local(b) => if b.Deliver? { DeliverKeepsTimely(w, b.m, b.identity, c, ttl); }
    case _ => RefreshKeepsTimely(w, a, c, ttl);
  }

  // After a wipe, what an answer could replay is either too old or of another session.
  lemma WipedEntryIsSpent(w: World, s: ControlSession, last: int, e: Vehicle.Accept, c: Vehicle.Config)
    requires Vehicle.LogOk(w.n, c) && WipedIsDead(w, c) && w.n.wiped && e in w.n.log
    requires w.n.phase.Waiting? && w.n.phase.began <= w.n.now && c.interval > c.limits.maxAge + c.limits.maxSkew
    requires w.answer.Some? && w.answer.value.response.Reply? && w.answer.value.response.session == s && w.n.now <= s.expiresAt
    ensures Spent(e, s.sessionId, last, w.n.now, c)
  {
    if e.at + c.interval <= w.n.phase.began { OldIsSpent(w.n, e, s.sessionId, last, c); }
  }

  // Whatever a refresh brings is safe to load.
  lemma TimelyLoadIsSafe(w: World, arrives: bool, c: Vehicle.Config, ttl: int)
    requires WorldOk(w, c, ttl) && Vehicle.LogOk(w.n, c) && PauseOk(w.n, c) && WipedIsDead(w, c) && w.n.phase.Waiting?
    requires c.interval > c.limits.maxAge + c.limits.maxSkew
    ensures SafeStep(w.n, VehicleActs(w, End(arrives), c, ttl)[0], c)
  {
    var r := if arrives && w.answer.Some? then w.answer.value.response else Failed;
    if Loads(r, c.limits.vehicleId) && w.n.now <= r.session.expiresAt {
      var sid, last := r.session.sessionId, CounterAfterLoad(w.n, r.session.sessionId);
      if !w.n.wiped {
        PauseMakesLoadsSafe(w.n, r.session, c);
      } else {
        forall e | e in w.n.log ensures Spent(e, sid, last, w.n.now, c) {
          WipedEntryIsSpent(w, r.session, last, e, c);
        }
      }
    }
  }

  ghost predicate Sound(w: World, c: Vehicle.Config, ttl: int) {
    && WorldOk(w, c, ttl) && Vehicle.LogOk(w.n, c) && CounterOk(w.n, c) && Ordered(w.n.log) && PauseOk(w.n, c)
    && CopiesCurrent(w, c) && WipedIsDead(w, c)
  }

  lemma VehicleStaysSound(w: World, a: Action, c: Vehicle.Config, ttl: int)
    requires Sound(w, c, ttl) && c.interval > c.limits.maxAge + c.limits.maxSkew
    ensures var n' := Apply(w, a, c, ttl).n; Vehicle.LogOk(n', c) && CounterOk(n', c) && Ordered(n'.log) && PauseOk(n', c)
  {
    var acts := VehicleActs(w, a, c, ttl);
    OneVehicleStep(w, a, c, ttl);
    if acts != [] {
      if a.End? { TimelyLoadIsSafe(w, a.arrives, c, ttl); }
      Vehicle.StepKeepsLog(w.n, acts[0], c);
      StepKeepsOrder(w.n, acts[0], c);
      StepKeepsPause(w.n, acts[0], c);
    }
  }

  lemma {:induction false} TimelyRunsStaySound(w: World, acts: seq<Action>, c: Vehicle.Config, ttl: int)
    requires Sound(w, c, ttl) && ttl > 0 && TimelyRun(w, acts, c, ttl)
    requires c.interval > c.limits.maxAge + c.limits.maxSkew
    ensures Sound(Run(w, acts, c, ttl), c, ttl)
    decreases |acts|
  {
    if acts != [] {
      StepKeepsWorld(w, acts[0], c, ttl);
      StepKeepsTimely(w, acts[0], c, ttl);
      VehicleStaysSound(w, acts[0], c, ttl);
      TimelyRunsStaySound(Apply(w, acts[0], c, ttl), acts[1..], c, ttl);
    }
  }

  // In every run of vehicle and gateways whose renewals find at least one refresh gap left on the record,
  // no packet is accepted twice and each session's numbers rise, across every kind of reload, the one
  // after a local expiry included.
  lemma TimelyRenewalNeedsNoGap(start: int, acts: seq<Action>, c: Vehicle.Config, ttl: int)
    requires ttl > 0 && TimelyRun(Start(start, c), acts, c, ttl)
    requires c.interval > c.limits.maxAge + c.limits.maxSkew
    ensures var log := Run(Start(start, c), acts, c, ttl).n.log;
            && Ordered(log)
            && forall i, j :: 0 <= i < j < |log| ==> log[i].packet != log[j].packet
  {
    TimelyRunsStaySound(Start(start, c), acts, c, ttl);
  }
}
