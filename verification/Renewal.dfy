// The renewal schedule keeps a lease, and a holder that stops renewing loses it.
module Renewal {
  import opened Types
  import opened ControlLease

  // A lease script reaching Redis at an instant, whoever sent it.
  datatype Script =
    | DoAcquire(session: ControlSession)
    | DoRenew(v: string, sid: string, op: string, expiresAt: int)
    | DoRelease(v: string, sid: string, op: string)

  datatype Event = Event(at: int, script: Script)

  // The store after the script, and its result.
  function Answered(st: Store, e: Event, ttl: int): (Store, int) {
    match e.script
    case DoAcquire(s) => AcquireScript(st, s, ttl, e.at)
    case DoRenew(v, sid, op, expiresAt) => RenewScript(st, v, sid, op, expiresAt, ttl, e.at)
    case DoRelease(v, sid, op) => ReleaseScript(st, v, sid, op, e.at)
  }

  function Execute(st: Store, e: Event, ttl: int): Store {
    Answered(st, e, ttl).0
  }

  function Play(st: Store, evs: seq<Event>, ttl: int): Store {
    if evs == [] then st else Execute(Play(st, evs[..|evs| - 1], ttl), evs[|evs| - 1], ttl)
  }

  predicate InOrder(evs: seq<Event>, start: int) {
    && (forall i :: 0 <= i < |evs| ==> start <= evs[i].at)
    && (forall i, j :: 0 <= i < j < |evs| ==> evs[i].at <= evs[j].at)
  }

  // ---------- the renewing holder ----------

  predicate Renews(e: Event, s: ControlSession) {
    e.script.DoRenew? && e.script.v == s.vehicleId && e.script.sid == s.sessionId && e.script.op == s.operatorId
  }

  // Others may acquire, renew and release as they like; the holder does not release, and ids are fresh.
  predicate Foreign(e: Event, s: ControlSession) {
    && !(e.script.DoRelease? && e.script.sid == s.sessionId && e.script.op == s.operatorId)
    && !(e.script.DoAcquire? && e.script.session.sessionId == s.sessionId)
  }

  // The lease and its index are the session's, and live at least until d.
  ghost predicate HeldUntil(st: Store, s: ControlSession, d: int) {
    && s.vehicleId in st.lease && s.sessionId in st.index
    && st.lease[s.vehicleId].value == s.(expiresAt := st.lease[s.vehicleId].value.expiresAt)
    && d <= st.lease[s.vehicleId].deadline
    && st.index[s.sessionId] == Entry(s.vehicleId, st.lease[s.vehicleId].deadline)
    && (forall w :: w in st.lease && w != s.vehicleId ==> st.lease[w].value.sessionId != s.sessionId)
  }

  // The instant up to which the scripts seen so far keep the lease.
  function KeptUntil(evs: seq<Event>, s: ControlSession, acquired: int, ttl: int): int {
    if evs == [] then acquired + ttl
    else if Renews(evs[|evs| - 1], s) then evs[|evs| - 1].at + ttl
    else KeptUntil(evs[..|evs| - 1], s, acquired, ttl)
  }

  lemma OneScript(st: Store, s: ControlSession, e: Event, d: int, ttl: int)
    requires ttl > 0 && s.status == SessionStatus.Active && HeldUntil(st, s, d) && e.at <= d && Foreign(e, s)
    ensures HeldUntil(Execute(st, e, ttl), s, if Renews(e, s) then e.at + ttl else d)
  {
  }

  // A renewal lasts at least until the time of every later event plus the lease.
  lemma {:induction false} KeptUntilCovers(evs: seq<Event>, s: ControlSession, acquired: int, ttl: int, i: nat)
    requires InOrder(evs, acquired)
    ensures KeptUntil(evs, s, acquired, ttl) >= acquired + ttl
    ensures i < |evs| && Renews(evs[i], s) ==> KeptUntil(evs, s, acquired, ttl) >= evs[i].at + ttl
    decreases |evs|
  {
    if evs != [] && !Renews(evs[|evs| - 1], s) {
      KeptUntilCovers(evs[..|evs| - 1], s, acquired, ttl, i);
    }
  }

  // The browser renews every half lease, as the acquire response tells it to.
  function Period(ttl: int): int {
    ttl / 2
  }

  // When the k-th renewal timer fires.
  function Slot(acquired: int, delay: int, ttl: int, k: nat): int {
    if k == 0 then acquired + delay else Slot(acquired, delay, ttl, k - 1) + Period(ttl)
  }

  // Some renewal of round k reaches Redis in its slot: start-up delay, k periods, and at most the latency.
  ghost predicate RoundDone(evs: seq<Event>, s: ControlSession, acquired: int, delay: int, latency: int, ttl: int, k: nat) {
    var slot := Slot(acquired, delay, ttl, k);
    exists i :: 0 <= i < |evs| && Renews(evs[i], s) && slot <= evs[i].at <= slot + latency
  }

  ghost predicate OnSchedule(evs: seq<Event>, s: ControlSession, acquired: int, delay: int, latency: int, rounds: nat, ttl: int) {
    && InOrder(evs, acquired) && 0 <= delay && 0 <= latency && ttl > 0
    && delay + latency <= ttl - Period(ttl)
    && (forall i :: 0 <= i < |evs| ==> Foreign(evs[i], s))
    && (forall k: nat :: 1 <= k <= rounds ==> RoundDone(evs, s, acquired, delay, latency, ttl, k))
  }

  // At any instant up to a lease after the last round, the scripts before it keep the lease until then.
  lemma {:induction false} ScheduleCovers(evs: seq<Event>, s: ControlSession, acquired: int, delay: int, latency: int,
                                          rounds: nat, ttl: int, i: nat, t: int, k: nat)
    requires OnSchedule(evs, s, acquired, delay, latency, rounds, ttl) && k <= rounds && i <= |evs|
    requires forall j :: i <= j < |evs| ==> t <= evs[j].at
    requires t <= if k == 0 && rounds == 0 then acquired + ttl
                  else Slot(acquired, delay, ttl, k) + (if k == rounds then ttl else Period(ttl) + latency)
    ensures t <= KeptUntil(evs[..i], s, acquired, ttl)
    decreases k
  {
    KeptUntilCovers(evs[..i], s, acquired, ttl, 0);
    if k > 0 {
      assert RoundDone(evs, s, acquired, delay, latency, ttl, k);
      var slot := Slot(acquired, delay, ttl, k);
      var j :| 0 <= j < |evs| && Renews(evs[j], s) && slot <= evs[j].at <= slot + latency;
      if j < i {
        assert evs[..i][j] == evs[j];
        KeptUntilCovers(evs[..i], s, acquired, ttl, j);
      } else {
        ScheduleCovers(evs, s, acquired, delay, latency, rounds, ttl, i, t, k - 1);
      }
    }
  }

  lemma {:induction false} ScriptsKeepTheLease(st: Store, evs: seq<Event>, s: ControlSession, acquired: int, delay: int,
                                               latency: int, rounds: nat, ttl: int, i: nat)
    requires OnSchedule(evs, s, acquired, delay, latency, rounds, ttl) && s.status == SessionStatus.Active
    requires HeldUntil(st, s, acquired + ttl) && i <= |evs|
    requires forall j :: 0 <= j < i ==> evs[j].at <= LastCovered(acquired, delay, rounds, ttl)
    ensures HeldUntil(Play(st, evs[..i], ttl), s, KeptUntil(evs[..i], s, acquired, ttl))
    decreases i
  {
    if i > 0 {
      assert evs[..i][..i - 1] == evs[..i - 1];
      ScriptsKeepTheLease(st, evs, s, acquired, delay, latency, rounds, ttl, i - 1);
      ScheduleCovers(evs, s, acquired, delay, latency, rounds, ttl, i - 1, evs[i - 1].at, rounds);
      OneScript(Play(st, evs[..i - 1], ttl), s, evs[i - 1], KeptUntil(evs[..i - 1], s, acquired, ttl), ttl);
    }
  }

  function LastCovered(acquired: int, delay: int, rounds: nat, ttl: int): int {
    if rounds == 0 then acquired + ttl else Slot(acquired, delay, ttl, rounds) + ttl
  }

  lemma HolderStaysHolder(st: Store, evs: seq<Event>, s: ControlSession, acquired: int, delay: int, latency: int,
                          rounds: nat, ttl: int, i: nat, t: int)
    requires OnSchedule(evs, s, acquired, delay, latency, rounds, ttl) && s.status == SessionStatus.Active
    requires HeldUntil(st, s, acquired + ttl)
    requires i <= |evs| && (forall j :: 0 <= j < i ==> evs[j].at <= t) && (forall j :: i <= j < |evs| ==> t <= evs[j].at)
    requires t <= LastCovered(acquired, delay, rounds, ttl)
    ensures var held := Lookup(Play(st, evs[..i], ttl).lease, s.vehicleId, t);
            held.Some? && held.value.sessionId == s.sessionId && held.value.operatorId == s.operatorId
  {
    ScriptsKeepTheLease(st, evs, s, acquired, delay, latency, rounds, ttl, i);
    ScheduleCovers(evs, s, acquired, delay, latency, rounds, ttl, i, t, rounds);
  }

  // If the start-up delay and the latency of a renewal together fit in half a lease, then at every
  // instant from a successful acquire script to a lease after the last round, the session holds the
  // vehicle, whatever other clients try meanwhile.
  lemma RenewalKeepsTheLease(st0: Store, evs: seq<Event>, s: ControlSession, acquired: int, delay: int, latency: int,
                             rounds: nat, ttl: int, i: nat, t: int)
    requires OnSchedule(evs, s, acquired, delay, latency, rounds, ttl) && s.status == SessionStatus.Active
    requires AcquireScript(st0, s, ttl, acquired).1 == 1
    requires forall w :: w in st0.lease ==> st0.lease[w].value.sessionId != s.sessionId
    requires i <= |evs| && (forall j :: 0 <= j < i ==> evs[j].at <= t) && (forall j :: i <= j < |evs| ==> t <= evs[j].at)
    requires acquired <= t <= LastCovered(acquired, delay, rounds, ttl)
    ensures var st := AcquireScript(st0, s, ttl, acquired).0;
            var held := Lookup(Play(st, evs[..i], ttl).lease, s.vehicleId, t);
            held.Some? && held.value.sessionId == s.sessionId && held.value.operatorId == s.operatorId
  {
    var st := AcquireScript(st0, s, ttl, acquired).0;
    HolderStaysHolder(st, evs, s, acquired, delay, latency, rounds, ttl, i, t);
  }

  // ---------- the holder that stops ----------

  predicate Concerns(e: Event, v: string) {
    match e.script
    case DoAcquire(s) => s.vehicleId == v
    case DoRenew(w, _, _, _) => w == v
    case DoRelease(w, _, _) => w == v
  }

  // The i-th script is about the vehicle and was granted, not refused.
  predicate Granted(evs: seq<Event>, i: nat, v: string, ttl: int)
    requires i < |evs|
  {
    Concerns(evs[i], v) && Answered(Play(EMPTY_STORE, evs[..i], ttl), evs[i], ttl).1 == 1
  }

  predicate Extends(evs: seq<Event>, i: nat, v: string, ttl: int)
    requires i < |evs|
  {
    Granted(evs, i, v, ttl) && !evs[i].script.DoRelease?
  }

  predicate Frees(evs: seq<Event>, i: nat, v: string, ttl: int)
    requires i < |evs|
  {
    Granted(evs, i, v, ttl) && evs[i].script.DoRelease?
  }

  // The i-th script gave or extended a lease that lasts until t, and no release was granted since.
  ghost predicate Covers(evs: seq<Event>, i: nat, v: string, ttl: int, t: int)
    requires i < |evs|
  {
    Extends(evs, i, v, ttl) && t <= evs[i].at + ttl && forall j :: i < j < |evs| ==> !Frees(evs, j, v, ttl)
  }

  lemma CoversBefore(evs: seq<Event>, i: nat, v: string, ttl: int, t: int)
    requires i + 1 < |evs|
    ensures var n := |evs| - 1;
            Covers(evs, i, v, ttl, t) <==> Covers(evs[..n], i, v, ttl, t) && !Frees(evs, n, v, ttl)
  {
    var n := |evs| - 1;
    forall j | 0 <= j < n ensures Granted(evs, j, v, ttl) == Granted(evs[..n], j, v, ttl) {
      assert evs[..n][..j] == evs[..j];
    }
    assert forall j :: 0 <= j < n ==> Frees(evs, j, v, ttl) == Frees(evs[..n], j, v, ttl);
  }

  ghost predicate Covered(evs: seq<Event>, v: string, ttl: int, t: int) {
    exists i: nat :: i < |evs| && Covers(evs, i, v, ttl, t)
  }

  predicate NoneAfterLast(evs: seq<Event>) {
    forall i :: 0 <= i < |evs| ==> evs[i].at <= evs[|evs| - 1].at
  }

  lemma InOrderPrefix(evs: seq<Event>, start: int)
    requires InOrder(evs, start) && evs != []
    ensures InOrder(evs[..|evs| - 1], start) && NoneAfterLast(evs)
  {
  }

  // A lease is live at t if and only if some granted acquire or renewal of the vehicle lies at most a
  // lease time back with no granted release since: refused requests neither give nor prolong anything.
  lemma {:induction false} HeldIffGranted(evs: seq<Event>, v: string, start: int, ttl: int, t: int)
    requires InOrder(evs, start)
    ensures Lookup(Play(EMPTY_STORE, evs, ttl).lease, v, t).Some? <==> Covered(evs, v, ttl, t)
    decreases |evs|
  {
    if evs != [] {
      var n := |evs| - 1;
      InOrderPrefix(evs, start);
      HeldIffGranted(evs[..n], v, start, ttl, t);
      CoveredBefore(evs, v, ttl, t);
      LastScript(Play(EMPTY_STORE, evs[..n], ttl), evs[n], v, ttl, t);
    }
  }

  // Whether some script covers an instant, in terms of the last one.
  lemma CoveredBefore(evs: seq<Event>, v: string, ttl: int, t: int)
    requires evs != [] && NoneAfterLast(evs)
    ensures var n := |evs| - 1;
            Covered(evs, v, ttl, t) <==>
              if Extends(evs, n, v, ttl) then t <= evs[n].at + ttl
              else !Frees(evs, n, v, ttl) && Covered(evs[..n], v, ttl, t)
  {
    var n := |evs| - 1;
    forall i: nat | i < n ensures Covers(evs, i, v, ttl, t) <==> Covers(evs[..n], i, v, ttl, t) && !Frees(evs, n, v, ttl) {
      CoversBefore(evs, i, v, ttl, t);
    }
    assert Covers(evs, n, v, ttl, t) <==> Extends(evs, n, v, ttl) && t <= evs[n].at + ttl;
  }

  lemma LastScript(st: Store, e: Event, v: string, ttl: int, t: int)
    ensures var st' := Execute(st, e, ttl);
            var granted := Concerns(e, v) && Answered(st, e, ttl).1 == 1;
            Lookup(st'.lease, v, t).Some? <==>
              if !granted then Lookup(st.lease, v, t).Some? else !e.script.DoRelease? && t <= e.at + ttl
  {
  }

  ghost predicate NoneExtendedAfter(evs: seq<Event>, v: string, last: int, ttl: int) {
    forall i: nat :: i < |evs| && Extends(evs, i, v, ttl) ==> evs[i].at <= last
  }

  // An acquire succeeds if and only if no granted acquire or renewal still covers its instant. So once the
  // holder's last granted script lies more than a lease time back, the next acquire succeeds, however
  // often others tried and were refused meanwhile.
  lemma DeadHolderFreesTheLease(evs: seq<Event>, s: ControlSession, start: int, last: int, ttl: int, t: int)
    requires InOrder(evs, start)
    ensures var granted := AcquireScript(Play(EMPTY_STORE, evs, ttl), s, ttl, t).1 == 1;
            && (granted <==> !Covered(evs, s.vehicleId, ttl, t))
            && (NoneExtendedAfter(evs, s.vehicleId, last, ttl) && t > last + ttl ==> granted)
  {
    HeldIffGranted(evs, s.vehicleId, start, ttl, t);
  }
}
