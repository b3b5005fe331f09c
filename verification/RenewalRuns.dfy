// The renewal schedule again, now for renewing clients with all their round trips among everybody else's.
module RenewalRuns {
  import opened Types
  import opened ControlLease
  import opened ControlSystem
  import opened Linearizability
  import R = Renewal

  // The lease script an action sends to Redis, if it sends one.
  function ScriptOf(s: Sys, a: Action): seq<R.Event> {
    if !a.Advance? || a.c !in s.clients then []
    else match s.clients[a.c]
      case Acquiring(r) => [R.Event(s.now, R.DoAcquire(r))]
      case RunningScript(req, v, expiresAt) =>
        [R.Event(s.now, if req.Renew? then R.DoRenew(v, req.sid, req.op, expiresAt) else R.DoRelease(v, req.sid, req.op))]
      case _ => []
  }

  function Scripts(s: Sys, acts: seq<Action>, ttl: int): seq<R.Event>
    decreases |acts|
  {
    if acts == [] then [] else ScriptOf(s, acts[0]) + Scripts(Apply(s, acts[0], ttl), acts[1..], ttl)
  }

  lemma {:induction false} PlayFirst(st: Store, e: R.Event, evs: seq<R.Event>, ttl: int)
    ensures R.Play(st, [e] + evs, ttl) == R.Play(R.Execute(st, e, ttl), evs, ttl)
    decreases |evs|
  {
    if evs == [] {
      assert [e] + evs == [e] && [e][..0] == [];
    } else {
      var n := |evs| - 1;
      assert ([e] + evs)[..n + 1] == [e] + evs[..n];
      PlayFirst(st, e, evs[..n], ttl);
    }
  }

  lemma ScriptIsTheStep(s: Sys, a: Action, ttl: int)
    ensures var e := ScriptOf(s, a);
            Apply(s, a, ttl).st == if e == [] then s.st else R.Execute(s.st, e[0], ttl)
    ensures |ScriptOf(s, a)| <= 1
  {
  }

  // The store of a run is what its scripts make of the store it starts from.
  lemma {:induction false} ScriptsAreTheRun(s: Sys, acts: seq<Action>, ttl: int)
    ensures R.Play(s.st, Scripts(s, acts, ttl), ttl) == Run(s, acts, ttl).st
    decreases |acts|
  {
    if acts != [] {
      var s1 := Apply(s, acts[0], ttl);
      var first, rest := ScriptOf(s, acts[0]), Scripts(s1, acts[1..], ttl);
      ScriptsAreTheRun(s1, acts[1..], ttl);
      ScriptIsTheStep(s, acts[0], ttl);
      if first == [] {
        assert first + rest == rest;
      } else {
        assert first == [first[0]];
        PlayFirst(s.st, first[0], rest, ttl);
      }
    }
  }

  lemma {:induction false} ScriptsConcat(s: Sys, a: seq<Action>, b: seq<Action>, ttl: int)
    ensures Scripts(s, a + b, ttl) == Scripts(s, a, ttl) + Scripts(Run(s, a, ttl), b, ttl)
    decreases |a|
  {
    if a == [] {
      assert a + b == b;
    } else {
      assert (a + b)[1..] == a[1..] + b;
      ScriptsConcat(Apply(s, a[0], ttl), a[1..], b, ttl);
    }
  }

  lemma FirstInOrder(first: seq<R.Event>, rest: seq<R.Event>, now: int, later: int)
    requires now <= later && R.InOrder(rest, later) && forall i :: 0 <= i < |first| ==> first[i].at == now
    ensures R.InOrder(first + rest, now)
  {
  }

  lemma {:induction false} ScriptsInOrder(s: Sys, acts: seq<Action>, ttl: int)
    ensures s.now <= Run(s, acts, ttl).now && R.InOrder(Scripts(s, acts, ttl), s.now)
    ensures forall i :: 0 <= i < |Scripts(s, acts, ttl)| ==> Scripts(s, acts, ttl)[i].at <= Run(s, acts, ttl).now
    decreases |acts|
  {
    if acts != [] {
      var s1 := Apply(s, acts[0], ttl);
      ScriptsInOrder(s1, acts[1..], ttl);
      assert s.now <= s1.now && forall i :: 0 <= i < |ScriptOf(s, acts[0])| ==> ScriptOf(s, acts[0])[i].at == s.now;
      FirstInOrder(ScriptOf(s, acts[0]), Scripts(s1, acts[1..], ttl), s.now, s1.now);
    }
  }

  function At(s: Sys, acts: seq<Action>, m: nat, ttl: int): Sys
    requires m <= |acts|
  {
    Run(s, acts[..m], ttl)
  }

  // The scripts of a run up to one of its states are those sent before, and none that are sent later.
  lemma ScriptsUpTo(s: Sys, acts: seq<Action>, m: nat, ttl: int)
    requires m <= |acts|
    ensures var evs, n := Scripts(s, acts, ttl), |Scripts(s, acts[..m], ttl)|;
            && n <= |evs| && evs[..n] == Scripts(s, acts[..m], ttl)
            && (forall j :: 0 <= j < n ==> evs[j].at <= At(s, acts, m, ttl).now)
            && (forall j :: n <= j < |evs| ==> At(s, acts, m, ttl).now <= evs[j].at)
            && R.Play(s.st, evs[..n], ttl) == At(s, acts, m, ttl).st
  {
    assert acts == acts[..m] + acts[m..];
    ScriptsConcat(s, acts[..m], acts[m..], ttl);
    ScriptsInOrder(s, acts[..m], ttl);
    ScriptsInOrder(At(s, acts, m, ttl), acts[m..], ttl);
    ScriptsAreTheRun(s, acts[..m], ttl);
  }

  lemma OneStep(s: Sys, acts: seq<Action>, m: nat, ttl: int)
    requires m < |acts|
    ensures At(s, acts, m + 1, ttl) == Apply(At(s, acts, m, ttl), acts[m], ttl)
  {
    assert acts[..m + 1] == acts[..m] + [acts[m]];
    RunThenStep(s, acts[..m], acts[m], ttl);
  }

  lemma {:induction false} TimeOrder(s: Sys, acts: seq<Action>, i: nat, m: nat, ttl: int)
    requires i <= m <= |acts|
    ensures At(s, acts, i, ttl).now <= At(s, acts, m, ttl).now
    decreases m - i
  {
    if i < m {
      OneStep(s, acts, m - 1, ttl);
      TimeOrder(s, acts, i, m - 1, ttl);
    }
  }

  // ---------- nobody releases the session ----------

  predicate Releases(req: Request, r: ControlSession) {
    req == Release(r.sessionId, r.operatorId)
  }

  predicate NoReleaseAsked(acts: seq<Action>, r: ControlSession) {
    forall i :: 0 <= i < |acts| ==> !(acts[i].Call? && Releases(acts[i].req, r))
  }

  ghost predicate NoReleaser(s: Sys, r: ControlSession) {
    && r.sessionId in s.past.rank
    && forall c :: c in s.clients && !s.clients[c].Acquiring? && !s.clients[c].Done? ==> !Releases(s.clients[c].req, r)
  }

  lemma StepKeepsForeign(s: Sys, a: Action, r: ControlSession, ttl: int)
    requires Inv(s, ttl) && ttl > 0 && NoReleaser(s, r) && NoReleaseAsked([a], r)
    ensures NoReleaser(Apply(s, a, ttl), r)
    ensures forall i :: 0 <= i < |ScriptOf(s, a)| ==> R.Foreign(ScriptOf(s, a)[i], r)
  {
    assert a == [a][0];
    if a.Advance? && a.c in s.clients { assert ClientOk(s.clients[a.c], s.past, s.now, ttl); }
  }

  lemma {:induction false} ScriptsAreForeign(s: Sys, acts: seq<Action>, r: ControlSession, ttl: int)
    requires Inv(s, ttl) && ttl > 0 && NoReleaser(s, r) && NoReleaseAsked(acts, r)
    ensures forall i :: 0 <= i < |Scripts(s, acts, ttl)| ==> R.Foreign(Scripts(s, acts, ttl)[i], r)
    decreases |acts|
  {
    if acts != [] {
      var s1 := Apply(s, acts[0], ttl);
      StepKeepsInv(s, acts[0], ttl);
      StepKeepsForeign(s, acts[0], r, ttl);
      ScriptsAreForeign(s1, acts[1..], r, ttl);
    }
  }

  // ---------- one renewing client ----------

  // From state i to state j of a run, and no longer, a client works on a renewal of the session.
  ghost predicate Renewing(s: Sys, acts: seq<Action>, r: ControlSession, c: nat, i: nat, j: nat, ttl: int) {
    && i < j <= |acts|
    && c in At(s, acts, i, ttl).clients && At(s, acts, i, ttl).clients[c] == FindingVehicle(Renew(r.sessionId, r.operatorId))
    && (forall m :: i <= m < j ==> Busy(At(s, acts, m, ttl), c))
    && !Busy(At(s, acts, j, ttl), c)
  }

  predicate Busy(s: Sys, c: nat) {
    c in s.clients && !s.clients[c].Done?
  }

  predicate WorksOn(s: Sys, c: nat, req: Request) {
    Busy(s, c) && !s.clients[c].Acquiring? && s.clients[c].req == req
  }

  lemma {:induction false} KeepsWorking(s: Sys, acts: seq<Action>, r: ControlSession, c: nat, i: nat, j: nat, m: nat, ttl: int)
    requires Renewing(s, acts, r, c, i, j, ttl) && i <= m < j
    ensures WorksOn(At(s, acts, m, ttl), c, Renew(r.sessionId, r.operatorId))
    decreases m
  {
    if i < m {
      KeepsWorking(s, acts, r, c, i, j, m - 1, ttl);
      OneStep(s, acts, m - 1, ttl);
      assert Busy(At(s, acts, m, ttl), c);
    }
  }

  predicate HoldsNow(s: Sys, r: ControlSession) {
    var held := Lookup(s.st.lease, r.vehicleId, s.now);
    held.Some? && held.value.sessionId == r.sessionId && held.value.operatorId == r.operatorId
  }

  // While the session is held, a renewal can only end by its script.
  lemma EndsByItsScript(s: Sys, a: Action, r: ControlSession, c: nat, ttl: int)
    requires Inv(s, ttl) && ttl > 0 && HoldsNow(s, r)
    requires WorksOn(s, c, Renew(r.sessionId, r.operatorId)) && !Busy(Apply(s, a, ttl), c)
    ensures a == Advance(c) && |ScriptOf(s, a)| == 1 && R.Renews(ScriptOf(s, a)[0], r)
  {
    var client := s.clients[c];
    IndexFindsHolder(s, r.vehicleId, r.sessionId, ttl);
    assert ClientOk(client, s.past, s.now, ttl);
    if !client.FindingVehicle? { HolderIsKnown(s, client.vehicle, r.vehicleId, r.sessionId, ttl); }
  }

  lemma ScriptIsSent(s: Sys, acts: seq<Action>, m: nat, ttl: int) returns (k: nat)
    requires m < |acts| && |ScriptOf(At(s, acts, m, ttl), acts[m])| == 1
    ensures k < |Scripts(s, acts, ttl)| && Scripts(s, acts, ttl)[k] == ScriptOf(At(s, acts, m, ttl), acts[m])[0]
    ensures Scripts(s, acts, ttl)[k].at == At(s, acts, m, ttl).now
  {
    k := |Scripts(s, acts[..m], ttl)|;
    assert acts == acts[..m] + acts[m..];
    ScriptsConcat(s, acts[..m], acts[m..], ttl);
  }

  // A renewal during which the session is held reaches Redis while it is being worked on.
  lemma RenewalReachesRedis(s: Sys, acts: seq<Action>, r: ControlSession, c: nat, i: nat, j: nat, ttl: int) returns (k: nat)
    requires Inv(s, ttl) && ttl > 0 && Renewing(s, acts, r, c, i, j, ttl)
    requires HoldsNow(At(s, acts, j - 1, ttl), r)
    ensures var evs := Scripts(s, acts, ttl);
            && k < |evs| && R.Renews(evs[k], r)
            && At(s, acts, i, ttl).now <= evs[k].at <= At(s, acts, j, ttl).now
  {
    var before := At(s, acts, j - 1, ttl);
    RunKeepsInv(s, acts[..j - 1], ttl);
    KeepsWorking(s, acts, r, c, i, j, j - 1, ttl);
    OneStep(s, acts, j - 1, ttl);
    EndsByItsScript(before, acts[j - 1], r, c, ttl);
    k := ScriptIsSent(s, acts, j - 1, ttl);
    TimeOrder(s, acts, i, j - 1, ttl);
    TimeOrder(s, acts, j - 1, j, ttl);
  }

  // ---------- all rounds ----------

  // The renewal of round k is asked for when its timer fires and answered within the latency.
  ghost predicate RoundAnswered(s: Sys, acts: seq<Action>, r: ControlSession, acquired: int, delay: int, latency: int, ttl: int, k: nat) {
    exists c: nat, i: nat, j: nat :: Renewing(s, acts, r, c, i, j, ttl)
      && R.Slot(acquired, delay, ttl, k) <= At(s, acts, i, ttl).now
      && At(s, acts, j, ttl).now <= R.Slot(acquired, delay, ttl, k) + latency
  }

  // The session has just won its lease, and nobody asks to release it.
  ghost predicate JustGranted(s: Sys, r: ControlSession, acts: seq<Action>, ttl: int) {
    && Inv(s, ttl) && ttl > 0 && r.status == SessionStatus.Active
    && R.HeldUntil(s.st, r, s.now + ttl) && NoReleaser(s, r) && NoReleaseAsked(acts, r)
  }

  ghost predicate Kept(s: Sys, acts: seq<Action>, r: ControlSession, until: int, ttl: int) {
    forall m: nat :: m <= |acts| && At(s, acts, m, ttl).now <= until ==> HoldsNow(At(s, acts, m, ttl), r)
  }

  lemma ScheduleKeeps(s: Sys, r: ControlSession, acts: seq<Action>, delay: int, latency: int, rounds: nat, ttl: int)
    requires JustGranted(s, r, acts, ttl)
    requires R.OnSchedule(Scripts(s, acts, ttl), r, s.now, delay, latency, rounds, ttl)
    ensures Kept(s, acts, r, R.LastCovered(s.now, delay, rounds, ttl), ttl)
  {
    forall m: nat | m <= |acts| && At(s, acts, m, ttl).now <= R.LastCovered(s.now, delay, rounds, ttl)
      ensures HoldsNow(At(s, acts, m, ttl), r)
    {
      ScriptsUpTo(s, acts, m, ttl);
      R.HolderStaysHolder(s.st, Scripts(s, acts, ttl), r, s.now, delay, latency, rounds, ttl,
                          |Scripts(s, acts[..m], ttl)|, At(s, acts, m, ttl).now);
    }
  }

  // A round answered while the session is held puts a renewal script into the round's slot.
  lemma AnsweredRoundIsDone(s: Sys, acts: seq<Action>, r: ControlSession, acquired: int, delay: int, latency: int,
                            round: nat, until: int, ttl: int)
    requires Inv(s, ttl) && ttl > 0 && Kept(s, acts, r, until, ttl)
    requires RoundAnswered(s, acts, r, acquired, delay, latency, ttl, round)
    requires R.Slot(acquired, delay, ttl, round) + latency <= until
    ensures R.RoundDone(Scripts(s, acts, ttl), r, acquired, delay, latency, ttl, round)
  {
    var slot := R.Slot(acquired, delay, ttl, round);
    var c: nat, i: nat, j: nat :| Renewing(s, acts, r, c, i, j, ttl) && slot <= At(s, acts, i, ttl).now
                                  && At(s, acts, j, ttl).now <= slot + latency;
    TimeOrder(s, acts, j - 1, j, ttl);
    var k := RenewalReachesRedis(s, acts, r, c, i, j, ttl);
  }

  lemma NextRoundFits(acquired: int, delay: int, latency: int, rounds: nat, ttl: int)
    requires 0 <= delay && 0 <= latency && delay + latency <= ttl - R.Period(ttl) && rounds > 0
    ensures R.Slot(acquired, delay, ttl, rounds) + latency <= R.LastCovered(acquired, delay, rounds - 1, ttl)
  {
  }

  lemma OneMoreRound(evs: seq<R.Event>, r: ControlSession, acquired: int, delay: int, latency: int, rounds: nat, ttl: int)
    requires rounds > 0 && R.OnSchedule(evs, r, acquired, delay, latency, rounds - 1, ttl)
    requires R.RoundDone(evs, r, acquired, delay, latency, ttl, rounds)
    ensures R.OnSchedule(evs, r, acquired, delay, latency, rounds, ttl)
  {
  }

  lemma NextRound(s: Sys, r: ControlSession, acts: seq<Action>, delay: int, latency: int, rounds: nat, ttl: int)
    requires Inv(s, ttl) && ttl > 0 && rounds > 0
    requires R.OnSchedule(Scripts(s, acts, ttl), r, s.now, delay, latency, rounds - 1, ttl)
    requires Kept(s, acts, r, R.LastCovered(s.now, delay, rounds - 1, ttl), ttl)
    requires RoundAnswered(s, acts, r, s.now, delay, latency, ttl, rounds)
    ensures R.OnSchedule(Scripts(s, acts, ttl), r, s.now, delay, latency, rounds, ttl)
  {
    var until := R.LastCovered(s.now, delay, rounds - 1, ttl);
    NextRoundFits(s.now, delay, latency, rounds, ttl);
    AnsweredRoundIsDone(s, acts, r, s.now, delay, latency, rounds, until, ttl);
    OneMoreRound(Scripts(s, acts, ttl), r, s.now, delay, latency, rounds, ttl);
  }

  lemma {:induction false} RoundsStayOnSchedule(s: Sys, r: ControlSession, acts: seq<Action>, delay: int, latency: int,
                                                rounds: nat, ttl: int)
    requires JustGranted(s, r, acts, ttl)
    requires 0 <= delay && 0 <= latency && delay + latency <= ttl - R.Period(ttl)
    requires forall k: nat :: 1 <= k <= rounds ==> RoundAnswered(s, acts, r, s.now, delay, latency, ttl, k)
    ensures R.OnSchedule(Scripts(s, acts, ttl), r, s.now, delay, latency, rounds, ttl)
    decreases rounds
  {
    if rounds == 0 {
      ScriptsInOrder(s, acts, ttl);
      ScriptsAreForeign(s, acts, r, ttl);
    } else {
      RoundsStayOnSchedule(s, r, acts, delay, latency, rounds - 1, ttl);
      ScheduleKeeps(s, r, acts, delay, latency, rounds - 1, ttl);
      NextRound(s, r, acts, delay, latency, rounds, ttl);
    }
  }

  // If the request of every renewal round is asked for when its timer fires and finishes all its round
  // trips within the latency, and delay and latency fit in half a lease, then the session is held in
  // every state of the run from its grant to a lease after the last round: no round is ever refused,
  // whatever any other client does in between.
  lemma RenewingClientsKeepTheLease(s: Sys, r: ControlSession, acts: seq<Action>, delay: int, latency: int,
                                    rounds: nat, ttl: int, m: nat)
    requires JustGranted(s, r, acts, ttl) && m <= |acts|
    requires 0 <= delay && 0 <= latency && delay + latency <= ttl - R.Period(ttl)
    requires forall k: nat :: 1 <= k <= rounds ==> RoundAnswered(s, acts, r, s.now, delay, latency, ttl, k)
    requires At(s, acts, m, ttl).now <= R.LastCovered(s.now, delay, rounds, ttl)
    ensures HoldsNow(At(s, acts, m, ttl), r)
  {
    RoundsStayOnSchedule(s, r, acts, delay, latency, rounds, ttl);
    ScheduleKeeps(s, r, acts, delay, latency, rounds, ttl);
  }

  // Every granted acquire is such a beginning, unless a release of the session was already being asked
  // for, which takes knowing its id before the acquire was answered.
  lemma GrantBegins(s0: Sys, c0: nat, r: ControlSession, acts: seq<Action>, ttl: int)
    requires Inv(s0, ttl) && ttl > 0 && c0 in s0.clients && s0.clients[c0] == Acquiring(r)
    requires Apply(s0, Advance(c0), ttl).clients[c0] == Done(Ok)
    requires forall c :: c in s0.clients && !s0.clients[c].Acquiring? && !s0.clients[c].Done? ==> !Releases(s0.clients[c].req, r)
    requires NoReleaseAsked(acts, r)
    ensures JustGranted(Apply(s0, Advance(c0), ttl), r, acts, ttl)
  {
    StepKeepsInv(s0, Advance(c0), ttl);
    assert ClientOk(s0.clients[c0], s0.past, s0.now, ttl);
    forall w | w in s0.st.lease ensures s0.st.lease[w].value.sessionId != r.sessionId {
      assert LeaseOk(w, s0.st.lease[w], s0.past, s0.now, ttl);
    }
  }
}
