// The dead-man's switch: when the vehicle brakes, and when it does not.
module FailSafe {
  import opened VehicleVerifier
  import opened VehicleNode

  // The vehicle is in emergency exactly when its last check came too late after the last valid command.
  predicate WatchOk(n: Node, c: Config) {
    && n.v.lastValid <= n.now
    && n.lastCheck <= n.now <= n.lastCheck + c.checkGap
    && (n.emergency <==> n.lastCheck - n.v.lastValid > c.deadMan)
  }

  lemma StepKeepsWatch(n: Node, a: Action, c: Config)
    requires WatchOk(n, c)
    ensures WatchOk(Apply(n, a, c), c)
  {
    if a.Deliver? {
      AcceptsExactly(n.v, a.m, a.identity, n.now, SignedBy(n.books), c.limits);
    }
  }

  lemma {:induction false} RunKeepsWatch(n: Node, acts: seq<Action>, c: Config)
    requires WatchOk(n, c)
    ensures WatchOk(Run(n, acts, c), c)
    decreases |acts|
  {
    if acts != [] {
      StepKeepsWatch(n, acts[0], c);
      RunKeepsWatch(Apply(n, acts[0], c), acts[1..], c);
    }
  }

  // In every run: silence longer than the timeout and one check gap means emergency; and emergency means
  // that the last check did see more silence than the timeout, with no command accepted after it.
  lemma EmergencyIffSilent(start: int, acts: seq<Action>, c: Config)
    ensures var n := Run(Start(start), acts, c);
            && (n.now - n.v.lastValid > c.deadMan + c.checkGap ==> n.emergency)
            && (n.emergency <==> n.lastCheck > n.v.lastValid + c.deadMan)
            && (n.emergency ==> n.now - n.v.lastValid > c.deadMan)
            && (forall i :: 0 <= i < |n.log| ==> n.log[i].at <= n.v.lastValid)
  {
    RunKeepsWatch(Start(start), acts, c);
    RunKeepsLast(Start(start), acts, c);
  }

  ghost predicate LastIsLatest(n: Node) {
    n.v.lastValid <= n.now && forall i :: 0 <= i < |n.log| ==> n.log[i].at <= n.v.lastValid
  }

  lemma {:induction false} RunKeepsLast(n: Node, acts: seq<Action>, c: Config)
    requires LastIsLatest(n)
    ensures LastIsLatest(Run(n, acts, c))
    decreases |acts|
  {
    if acts != [] {
      if acts[0].Deliver? {
        AcceptsExactly(n.v, acts[0].m, acts[0].identity, n.now, SignedBy(n.books), c.limits);
      }
      RunKeepsLast(Apply(n, acts[0], c), acts[1..], c);
    }
  }

  // ---------- no renewal, no new controller ----------

  // Nothing the vehicle holds or loads outlives the instant e.
  ghost predicate NothingOutlives(n: Node, e: int) {
    n.v.lastValid <= e && (n.v.session.Some? ==> n.v.session.value.expiresAt <= e)
  }

  predicate LoadsUntil(a: Action, e: int) {
    a.EndRefresh? && a.r.Reply? ==> a.r.session.expiresAt <= e
  }

  lemma {:induction false} RunStaysWithin(n: Node, acts: seq<Action>, e: int, c: Config)
    requires NothingOutlives(n, e) && forall k :: 0 <= k < |acts| ==> LoadsUntil(acts[k], e)
    ensures NothingOutlives(Run(n, acts, c), e)
    decreases |acts|
  {
    if acts != [] {
      if acts[0].Deliver? {
        AcceptsExactly(n.v, acts[0].m, acts[0].identity, n.now, SignedBy(n.books), c.limits);
      }
      assert LoadsUntil(acts[0], e);
      RunStaysWithin(Apply(n, acts[0], c), acts[1..], e, c);
    }
  }

  // If from some point on no session that outlives e is loaded, the vehicle brakes after
  // e + timeout + gap, whatever packets arrive and whatever else the gateway answers.
  lemma BrakesAfterExpiry(n: Node, acts: seq<Action>, e: int, c: Config)
    requires WatchOk(n, c) && NothingOutlives(n, e)
    requires forall k :: 0 <= k < |acts| ==> LoadsUntil(acts[k], e)
    ensures var n' := Run(n, acts, c); n'.now > e + c.deadMan + c.checkGap ==> n'.emergency
  {
    RunKeepsWatch(n, acts, c);
    RunStaysWithin(n, acts, e, c);
  }

  // ---------- what the watchdog leaves alone ----------

  // The cached session goes in one step if and only if a refresh begins, or a packet addressed to it
  // arrives after its expiry.
  lemma SessionDropsIff(n: Node, a: Action, c: Config)
    requires n.v.session.Some?
    ensures Apply(n, a, c).v.session.None? <==>
              || (a.BeginRefresh? && n.phase.Sleeping? && n.phase.wake <= n.now)
              || (a.Deliver? && Addressed(n.v.session.value, a.m, a.identity) && n.now > n.v.session.value.expiresAt)
  {
    if a.Deliver? {
      AcceptsExactly(n.v, a.m, a.identity, n.now, SignedBy(n.books), c.limits);
    }
    if a.EndRefresh? && n.phase.Waiting? { assert Finish(n.v, n.phase.previousId, n.phase.previousSequence, a.r, c.limits.vehicleId).session.Some?; }
  }

  // Checks never touch the trusted control state: over any stretch of checks, sending and passing time
  // the session, its counter and the instant of the last command stay, whether or not the vehicle brakes.
  lemma {:induction false} ChecksKeepTrustedState(n: Node, acts: seq<Action>, c: Config)
    requires forall k :: 0 <= k < |acts| ==> acts[k].Check? || acts[k].Tick? || acts[k].Send?
    ensures Run(n, acts, c).v == n.v
    decreases |acts|
  {
    if acts != [] {
      ChecksKeepTrustedState(Apply(n, acts[0], c), acts[1..], c);
    }
  }
}
