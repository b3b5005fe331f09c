// At most once and in order: the counter, the freshness window and the refresh pause together.
module ReplaySafety {
  import opened Types
  import opened ControlProtocol
  import opened VehicleVerifier
  import opened VehicleNode

  // Per session, accepted sequence numbers strictly increase; so no packet is accepted twice.
  ghost predicate Ordered(log: seq<Accept>) {
    forall i, j :: 0 <= i < j < |log| && log[i].packet.sessionId == log[j].packet.sessionId
      ==> log[i].packet.sequence < log[j].packet.sequence
  }

  // A packet already accepted cannot be accepted again by a counter at `last`: it is not newer, or too old.
  predicate Spent(e: Accept, sid: string, last: int, now: int, c: Config) {
    e.packet.sessionId == sid ==> e.packet.sequence <= last || now - e.packet.timestamp > c.limits.maxAge
  }

  ghost predicate AllSpent(n: Node, sid: string, last: int, c: Config) {
    forall e :: e in n.log ==> Spent(e, sid, last, n.now, c)
  }

  ghost predicate CounterOk(n: Node, c: Config) {
    && (n.v.session.Some? && n.now <= n.v.session.value.expiresAt ==>
          AllSpent(n, n.v.session.value.sessionId, n.v.lastSequence, c))
    && (n.phase.Waiting? ==> n.v.session.None? && n.v.lastSequence == 0)
  }

  // The counter the vehicle starts from when this session is loaded now.
  function CounterAfterLoad(n: Node, sid: string): int
    requires n.phase.Waiting?
  {
    if n.phase.previousId == Some(sid) then n.phase.previousSequence else 0
  }

  // The guard a caller can evaluate before a load: the record has run out, or no packet of its session
  // that the restored counter does not cover is still young enough to pass the freshness check.
  ghost predicate SafeToLoad(n: Node, s: ControlSession, c: Config)
    requires n.phase.Waiting?
  {
    n.now <= s.expiresAt ==> AllSpent(n, s.sessionId, CounterAfterLoad(n, s.sessionId), c)
  }

  ghost predicate SafeStep(n: Node, a: Action, c: Config) {
    a.EndRefresh? && n.phase.Waiting? && Loads(a.r, c.limits.vehicleId) ==> SafeToLoad(n, a.r.session, c)
  }

  ghost predicate SafeRun(n: Node, acts: seq<Action>, c: Config)
    decreases |acts|
  {
    acts == [] || (SafeStep(n, acts[0], c) && SafeRun(Apply(n, acts[0], c), acts[1..], c))
  }

  lemma StepKeepsOrder(n: Node, a: Action, c: Config)
    requires LogOk(n, c) && CounterOk(n, c) && Ordered(n.log) && SafeStep(n, a, c)
    ensures CounterOk(Apply(n, a, c), c) && Ordered(Apply(n, a, c).log)
  {
    if a.Deliver? {
      DeliverKeepsOrder(n, a.m, a.identity, c);
    }
  }

  // A packet that is accepted carries a larger number than every logged packet of its session.
  lemma NewerThanLogged(n: Node, m: Message, identity: string, c: Config, e: Accept)
    requires LogOk(n, c) && CounterOk(n, c) && e in n.log
    requires Apply(n, Deliver(m, identity), c).log != n.log
    ensures m.Json? && (e.packet.sessionId == m.packet.sessionId ==> e.packet.sequence < m.packet.sequence)
  {
    var n', p := Apply(n, Deliver(m, identity), c), m.packet;
    DeliverLogs(n, m, identity, c);
    var k :| 0 <= k < |n.log| && n.log[k] == e;
    assert EntryOk(n, n.log[k], c);
    if e.packet.sessionId == p.sessionId {
      assert Spent(e, p.sessionId, n.v.lastSequence, n.now, c);
      SentStaysSent(n, Deliver(m, identity), c, e.session.publicKey, e.packet);
      SentInOrder(n', e.session.publicKey, p, e.packet);
    }
  }

  lemma OneMoreInOrder(log: seq<Accept>, e: Accept)
    requires Ordered(log)
    requires forall k :: 0 <= k < |log| && log[k].packet.sessionId == e.packet.sessionId ==> log[k].packet.sequence < e.packet.sequence
    ensures Ordered(log + [e])
  {
  }

  lemma DeliverKeepsLogOrder(n: Node, m: Message, identity: string, c: Config)
    requires LogOk(n, c) && CounterOk(n, c) && Ordered(n.log)
    ensures Ordered(Apply(n, Deliver(m, identity), c).log)
  {
    var n' := Apply(n, Deliver(m, identity), c);
    DeliverLogs(n, m, identity, c);
    if n'.log != n.log {
      forall k | 0 <= k < |n.log| && n.log[k].packet.sessionId == m.packet.sessionId
        ensures n.log[k].packet.sequence < m.packet.sequence
      {
        NewerThanLogged(n, m, identity, c, n.log[k]);
      }
      OneMoreInOrder(n.log, EntryFor(n, m.packet));
    }
  }

  lemma DeliverKeepsCounter(n: Node, m: Message, identity: string, c: Config)
    requires LogOk(n, c) && CounterOk(n, c)
    ensures CounterOk(Apply(n, Deliver(m, identity), c), c)
  {
    DeliverLogs(n, m, identity, c);
    AcceptsExactly(n.v, m, identity, n.now, SignedBy(n.books), c.limits);
  }

  lemma DeliverKeepsOrder(n: Node, m: Message, identity: string, c: Config)
    requires LogOk(n, c) && CounterOk(n, c) && Ordered(n.log)
    ensures CounterOk(Apply(n, Deliver(m, identity), c), c) && Ordered(Apply(n, Deliver(m, identity), c).log)
  {
    DeliverKeepsCounter(n, m, identity, c);
    DeliverKeepsLogOrder(n, m, identity, c);
  }

  // For every run whose loads are all safe, whatever the gateway answers and the network delivers.
  lemma {:induction false} SafeRunsAcceptInOrder(n: Node, acts: seq<Action>, c: Config)
    requires LogOk(n, c) && CounterOk(n, c) && Ordered(n.log) && SafeRun(n, acts, c)
    ensures var n' := Run(n, acts, c); LogOk(n', c) && CounterOk(n', c) && Ordered(n'.log)
    decreases |acts|
  {
    if acts != [] {
      StepKeepsLog(n, acts[0], c);
      StepKeepsOrder(n, acts[0], c);
      SafeRunsAcceptInOrder(Apply(n, acts[0], c), acts[1..], c);
    }
  }

  // ---------- loads after a failed, refused or other-session refresh are always safe ----------

  // An accepted packet not covered by the counter at hand predates the last refresh by the pause.
  predicate Covered(e: Accept, before: int, sid: Option<string>, last: int, c: Config) {
    e.at + c.interval <= before || (sid == Some(e.packet.sessionId) && e.packet.sequence <= last)
  }

  // ... unless an expired session was cleared since.
  ghost predicate PauseOk(n: Node, c: Config) {
    !n.wiped ==>
      match n.phase
      case Sleeping(wake) => forall e :: e in n.log ==> Covered(e, wake, SessionId(n.v), n.v.lastSequence, c)
      case Waiting(began, id, last) => began <= n.now && forall e :: e in n.log ==> Covered(e, began, id, last, c)
  }

  lemma DeliverKeepsPause(n: Node, m: Message, identity: string, c: Config)
    requires LogOk(n, c) && PauseOk(n, c) && CounterOk(n, c)
    ensures PauseOk(Apply(n, Deliver(m, identity), c), c)
  {
    var n' := Apply(n, Deliver(m, identity), c);
    DeliverLogs(n, m, identity, c);
    assert n'.phase == n.phase && (n.wiped ==> n'.wiped);
    if n'.log == n.log {
      assert n'.v == n.v || n'.wiped by {
        AcceptsExactly(n.v, m, identity, n.now, SignedBy(n.books), c.limits);
      }
    } else {
      assert SessionId(n'.v) == SessionId(n.v) == Some(m.packet.sessionId);
    }
  }

  lemma RefreshKeepsPause(n: Node, a: Action, c: Config)
    requires LogOk(n, c) && PauseOk(n, c) && (a.BeginRefresh? || a.EndRefresh?)
    ensures PauseOk(Apply(n, a, c), c)
  {
    forall e | e in n.log ensures e.at <= n.now {
      var k :| 0 <= k < |n.log| && n.log[k] == e;
      assert EntryOk(n, n.log[k], c);
    }
  }

  lemma StepKeepsPause(n: Node, a: Action, c: Config)
    requires LogOk(n, c) && PauseOk(n, c) && CounterOk(n, c)
    ensures PauseOk(Apply(n, a, c), c)
  {
    match a
    case Deliver(m, identity) => DeliverKeepsPause(n, m, identity, c);
    case BeginRefresh => RefreshKeepsPause(n, a, c);
    case EndRefresh(_) => RefreshKeepsPause(n, a, c);
    case _ =>
  }

  // An entry older than the freshness window, by its own instant, is spent.
  lemma OldIsSpent(n: Node, e: Accept, sid: string, last: int, c: Config)
    requires LogOk(n, c) && e in n.log && n.now - e.at > c.limits.maxAge + c.limits.maxSkew
    ensures Spent(e, sid, last, n.now, c)
  {
    var k :| 0 <= k < |n.log| && n.log[k] == e;
    assert EntryOk(n, n.log[k], c);
  }

  lemma PauseMakesLoadsSafe(n: Node, s: ControlSession, c: Config)
    requires LogOk(n, c) && PauseOk(n, c) && n.phase.Waiting? && !n.wiped
    requires c.interval > c.limits.maxAge + c.limits.maxSkew
    ensures SafeToLoad(n, s, c)
  {
    forall e | e in n.log ensures Spent(e, s.sessionId, CounterAfterLoad(n, s.sessionId), n.now, c) {
      if e.at + c.interval <= n.phase.began { OldIsSpent(n, e, s.sessionId, CounterAfterLoad(n, s.sessionId), c); }
    }
  }

  // After an expired session was cleared: the reload of an unexpired record leaves the freshness window
  // behind.
  ghost predicate GapAfterExpiry(n: Node, a: Action, c: Config) {
    a.EndRefresh? && n.phase.Waiting? && n.wiped && Loads(a.r, c.limits.vehicleId) && n.now <= a.r.session.expiresAt ==>
      forall e :: e in n.log && e.packet.sessionId == a.r.session.sessionId ==>
        n.now - e.at > c.limits.maxAge + c.limits.maxSkew
  }

  ghost predicate GapRun(n: Node, acts: seq<Action>, c: Config)
    decreases |acts|
  {
    acts == [] || (GapAfterExpiry(n, acts[0], c) && GapRun(Apply(n, acts[0], c), acts[1..], c))
  }

  lemma GapMakesLoadsSafe(n: Node, a: Action, c: Config)
    requires LogOk(n, c) && PauseOk(n, c) && GapAfterExpiry(n, a, c)
    requires c.interval > c.limits.maxAge + c.limits.maxSkew
    ensures SafeStep(n, a, c)
  {
    if a.EndRefresh? && n.phase.Waiting? && Loads(a.r, c.limits.vehicleId) {
      if !n.wiped {
        PauseMakesLoadsSafe(n, a.r.session, c);
      } else if n.now <= a.r.session.expiresAt {
        forall e | e in n.log ensures Spent(e, a.r.session.sessionId, CounterAfterLoad(n, a.r.session.sessionId), n.now, c) {
          if e.packet.sessionId == a.r.session.sessionId {
            OldIsSpent(n, e, a.r.session.sessionId, CounterAfterLoad(n, a.r.session.sessionId), c);
          }
        }
      }
    }
  }

  lemma {:induction false} GapRunsAreSafe(n: Node, acts: seq<Action>, c: Config)
    requires LogOk(n, c) && PauseOk(n, c) && CounterOk(n, c) && Ordered(n.log) && GapRun(n, acts, c)
    requires c.interval > c.limits.maxAge + c.limits.maxSkew
    ensures SafeRun(n, acts, c)
    decreases |acts|
  {
    if acts != [] {
      GapMakesLoadsSafe(n, acts[0], c);
      StepKeepsLog(n, acts[0], c);
      StepKeepsOrder(n, acts[0], c);
      StepKeepsPause(n, acts[0], c);
      GapRunsAreSafe(Apply(n, acts[0], c), acts[1..], c);
    }
  }

  // The whole run of a vehicle: no packet is accepted twice, and each session's accepted numbers rise,
  // across successful refreshes and across failed or refused ones that wipe the counter.
  lemma AtMostOnceInOrder(start: int, acts: seq<Action>, c: Config)
    requires c.interval > c.limits.maxAge + c.limits.maxSkew
    requires GapRun(Start(start), acts, c)
    ensures var log := Run(Start(start), acts, c).log;
            && Ordered(log)
            && forall i, j :: 0 <= i < j < |log| ==> log[i].packet != log[j].packet
  {
    GapRunsAreSafe(Start(start), acts, c);
    SafeRunsAcceptInOrder(Start(start), acts, c);
  }

  // ---------- an unsafe load is one that admits a replay ----------

  // Loading a record is safe if and only if no packet already accepted would be accepted once more right
  // after the load.
  lemma SafeToLoadIffNoReplay(n: Node, s: ControlSession, c: Config)
    requires LogOk(n, c) && CounterOk(n, c) && n.phase.Waiting?
    requires Loads(Reply(s, true), c.limits.vehicleId) && s.publicKey == c.keyOf(s.sessionId)
    ensures SafeToLoad(n, s, c) <==> forall e :: e in n.log ==> !AcceptedAgain(n, s, e, c)
  {
    forall e | e in n.log
      ensures AcceptedAgain(n, s, e, c) <==>
                n.now <= s.expiresAt && !Spent(e, s.sessionId, CounterAfterLoad(n, s.sessionId), n.now, c)
    {
      ReplayOfOne(n, s, e, c);
    }
  }

  // The packet of a log entry, delivered by the session's operator right after the load, is accepted.
  predicate AcceptedAgain(n: Node, s: ControlSession, e: Accept, c: Config) {
    var loaded := Apply(n, EndRefresh(Reply(s, true)), c);
    |Apply(loaded, Deliver(Json(e.packet), "operator-" + s.operatorId), c).log| == |n.log| + 1
  }

  lemma SentIsSigned(n: Node, key: string, p: Packet)
    requires Sent(n, key, p) && !p.command.Other?
    ensures Signed(key, BuildSignMessage(p), p.signature) in SignedBy(n.books)
  {
    var i :| 0 <= i < |Book(n, key)| && SameContent(Book(n, key)[i], p) && Book(n, key)[i].signature == p.signature;
    assert n.books[key][i] == p;
  }

  lemma LoadedVerifier(n: Node, s: ControlSession, c: Config)
    requires CounterOk(n, c) && n.phase.Waiting?
    requires Loads(Reply(s, true), c.limits.vehicleId) && s.publicKey == c.keyOf(s.sessionId)
    ensures var loaded := Apply(n, EndRefresh(Reply(s, true)), c);
            && loaded.v == Verifier(Some(s), CounterAfterLoad(n, s.sessionId), n.v.lastValid)
            && loaded.log == n.log && loaded.books == n.books && loaded.now == n.now
  {
  }

  // Which logged packets still pass every check but the counter's.
  lemma StillEligible(n: Node, s: ControlSession, e: Accept, c: Config)
    requires EntryOk(n, e, c) && s.publicKey == c.keyOf(s.sessionId)
    ensures Eligible(s, Json(e.packet), "operator-" + s.operatorId, n.now, SignedBy(n.books), c.limits)
            <==> n.now <= s.expiresAt && e.packet.sessionId == s.sessionId && n.now - e.packet.timestamp <= c.limits.maxAge
  {
    SentIsSigned(n, e.session.publicKey, e.packet);
  }

  lemma ReplayOfOne(n: Node, s: ControlSession, e: Accept, c: Config)
    requires LogOk(n, c) && CounterOk(n, c) && n.phase.Waiting? && e in n.log
    requires Loads(Reply(s, true), c.limits.vehicleId) && s.publicKey == c.keyOf(s.sessionId)
    ensures AcceptedAgain(n, s, e, c) <==> n.now <= s.expiresAt && !Spent(e, s.sessionId, CounterAfterLoad(n, s.sessionId), n.now, c)
  {
    var loaded := Apply(n, EndRefresh(Reply(s, true)), c);
    var identity := "operator-" + s.operatorId;
    LoadedVerifier(n, s, c);
    var k :| 0 <= k < |n.log| && n.log[k] == e;
    StillEligible(n, s, e, c) by { assert EntryOk(n, n.log[k], c); }
    AcceptsExactly(loaded.v, Json(e.packet), identity, n.now, SignedBy(n.books), c.limits);
    DeliveryLogsIfAccepted(loaded, Json(e.packet), identity, c);
  }

  lemma DeliveryLogsIfAccepted(n: Node, m: Message, identity: string, c: Config)
    ensures |Apply(n, Deliver(m, identity), c).log| ==
            |n.log| + if VerifyPacket(n.v, m, identity, n.now, SignedBy(n.books), c.limits).1.Some? then 1 else 0
  {
  }
}
