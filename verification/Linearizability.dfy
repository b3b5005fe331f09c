// The lease clients, interleaved in any way and acting on stale reads, refine one atomic timed lock.
module Linearizability {
  import opened Types
  import opened ControlLease
  import opened ControlSystem

  datatype Hold = Hold(sid: string, op: string, deadline: int)
  type Lock = map<string, Hold>

  // The lock a store stands for at an instant: its live leases.
  function LockAt(st: Store, now: int): Lock {
    map v | v in st.lease && now <= st.lease[v].deadline ::
      Hold(st.lease[v].value.sessionId, st.lease[v].value.operatorId, st.lease[v].deadline)
  }

  function LockOf(s: Sys): Lock {
    LockAt(s.st, s.now)
  }

  // ---------- the atomic lock ----------

  function AtomicExpire(l: Lock, now: int): Lock {
    map v | v in l && now <= l[v].deadline :: l[v]
  }

  function AtomicAcquire(l: Lock, r: ControlSession, ttl: int, now: int): (Lock, Outcome) {
    if r.vehicleId in l then (l, LeaseHeld)
    else (l[r.vehicleId := Hold(r.sessionId, r.operatorId, now + ttl)], Ok)
  }

  ghost predicate HeldBy(l: Lock, v: string, sid: string) {
    v in l && l[v].sid == sid
  }

  ghost function AtomicRequest(l: Lock, req: Request, ttl: int, now: int): (Lock, Outcome) {
    if exists v :: HeldBy(l, v, req.sid) then
      var v :| HeldBy(l, v, req.sid);
      if l[v].op != req.op then (l, NotOwner)
      else if req.Renew? then (l[v := Hold(req.sid, req.op, now + ttl)], Ok)
      else (l - {v}, Ok)
    else (l, NotFound)
  }

  // ---------- one deciding round trip is one atomic operation ----------

  // Another session took the vehicle over between a release's reads and its script. The release
  // script does not look at the index, so it then blames the caller instead of the missing session.
  predicate Stolen(s: Sys, c: Client) {
    && c.RunningScript? && c.req.Release?
    && Lookup(s.st.lease, c.vehicle, s.now).Some?
    && s.st.lease[c.vehicle].value.sessionId != c.req.sid
  }

  // A live lease and the index entry of its session find each other.
  lemma IndexFindsHolder(s: Sys, v: string, sid: string, ttl: int)
    requires Inv(s, ttl)
    ensures Lookup(s.st.index, sid, s.now) == Some(v) <==> HeldBy(LockOf(s), v, sid)
    ensures HeldBy(LockOf(s), v, sid) ==>
              && s.st.index[sid].deadline == s.st.lease[v].deadline
              && s.st.lease[v].value.vehicleId == v
              && s.st.lease[v].value.status == SessionStatus.Active
  {
    if v in s.st.lease { assert PairOk(v, s.st) && LeaseOk(v, s.st.lease[v], s.past, s.now, ttl); }
    if sid in s.st.index { assert IndexOk(sid, s.st, s.past, s.now); }
  }

  lemma AcquireIsAtomic(st: Store, r: ControlSession, ttl: int, now: int)
    requires ttl > 0
    ensures var (c', st') := ClientStep(Acquiring(r), st, now, ttl);
            c'.Done? && (LockAt(st', now), c'.outcome) == AtomicAcquire(LockAt(st, now), r, ttl, now)
  {
    assert LockAt(ClientStep(Acquiring(r), st, now, ttl).1, now) == AtomicAcquire(LockAt(st, now), r, ttl, now).0;
  }

  // Only the vehicle a session was built for can be held by it.
  lemma HolderIsKnown(s: Sys, v: string, w: string, sid: string, ttl: int)
    requires Inv(s, ttl) && sid in s.past.issued && s.past.issued[sid].vehicleId == v && HeldBy(LockOf(s), w, sid)
    ensures w == v && s.st.lease[v].value.operatorId == s.past.issued[sid].operatorId
  {
    assert LeaseOk(w, s.st.lease[w], s.past, s.now, ttl);
  }

  lemma UniqueHolder(s: Sys, req: Request, ttl: int, v: string)
    requires Inv(s, ttl) && HeldBy(LockOf(s), v, req.sid)
    ensures var l := LockOf(s);
            AtomicRequest(l, req, ttl, s.now) ==
              if l[v].op != req.op then (l, NotOwner)
              else if req.Renew? then (l[v := Hold(req.sid, req.op, s.now + ttl)], Ok)
              else (l - {v}, Ok)
  {
    assert LeaseOk(v, s.st.lease[v], s.past, s.now, ttl);
    forall w | HeldBy(LockOf(s), w, req.sid) ensures w == v {
      HolderIsKnown(s, v, w, req.sid, ttl);
    }
  }

  // A read that ends a request early answers as the atomic lock would at that instant.
  lemma EarlyAnswerIsAtomic(s: Sys, client: Client, ttl: int)
    requires Inv(s, ttl) && ClientOk(client, s.past, s.now, ttl)
    requires client.FindingVehicle? || client.ReadingLease?
    ensures var (c', st') := ClientStep(client, s.st, s.now, ttl);
            st' == s.st && (c'.Done? ==> (LockOf(s), c'.outcome) == AtomicRequest(LockOf(s), client.req, ttl, s.now))
  {
    var req := client.req;
    if v :| HeldBy(LockOf(s), v, req.sid) {
      UniqueHolder(s, req, ttl, v);
      IndexFindsHolder(s, v, req.sid, ttl);
      if client.ReadingLease? { HolderIsKnown(s, client.vehicle, v, req.sid, ttl); }
    } else if client.FindingVehicle? && req.sid in s.st.index {
      IndexFindsHolder(s, s.st.index[req.sid].value, req.sid, ttl);
    } else if client.ReadingLease? && client.vehicle in s.st.lease {
      assert !HeldBy(LockOf(s), client.vehicle, req.sid);
    }
  }

  // The session a script names is held by the script's vehicle, or by no vehicle at all.
  lemma ScriptSeesHolder(s: Sys, client: Client, ttl: int)
    requires Inv(s, ttl) && client.RunningScript? && ClientOk(client, s.past, s.now, ttl)
    ensures var l := LockOf(s);
            AtomicRequest(l, client.req, ttl, s.now) ==
              if !HeldBy(l, client.vehicle, client.req.sid) then (l, NotFound)
              else if client.req.Renew? then
                (l[client.vehicle := Hold(client.req.sid, client.req.op, s.now + ttl)], Ok)
              else (l - {client.vehicle}, Ok)
    ensures HeldBy(LockOf(s), client.vehicle, client.req.sid) ==>
              s.st.lease[client.vehicle].value.operatorId == client.req.op
  {
    var v := client.vehicle;
    if HeldBy(LockOf(s), v, client.req.sid) {
      UniqueHolder(s, client.req, ttl, v);
      HolderIsKnown(s, v, v, client.req.sid, ttl);
    } else {
      forall w ensures !HeldBy(LockOf(s), w, client.req.sid) {
        if HeldBy(LockOf(s), w, client.req.sid) { HolderIsKnown(s, v, w, client.req.sid, ttl); }
      }
    }
  }

  lemma ScriptMeansAtomic(st: Store, client: Client, ttl: int, now: int)
    requires ttl > 0 && client.RunningScript?
    requires var l := LockAt(st, now);
             HeldBy(l, client.vehicle, client.req.sid) ==>
               && st.lease[client.vehicle].value.operatorId == client.req.op
               && st.lease[client.vehicle].value.status == SessionStatus.Active
    requires Lookup(st.index, client.req.sid, now) == Some(client.vehicle)
        <==> HeldBy(LockAt(st, now), client.vehicle, client.req.sid)
    ensures var (c', st') := ClientStep(client, st, now, ttl);
            var l := LockAt(st, now);
            c'.Done? &&
            if !HeldBy(l, client.vehicle, client.req.sid) then
              st' == st && c'.outcome == if client.req.Release? && client.vehicle in l then NotOwner else NotFound
            else
              c'.outcome == Ok && LockAt(st', now) ==
                if client.req.Renew? then l[client.vehicle := Hold(client.req.sid, client.req.op, now + ttl)]
                else l - {client.vehicle}
  {
  }

  lemma ScriptMatchesRequest(s: Sys, client: Client, ttl: int)
    requires ttl > 0 && client.RunningScript?
    requires var l := LockOf(s);
             AtomicRequest(l, client.req, ttl, s.now) ==
               if !HeldBy(l, client.vehicle, client.req.sid) then (l, NotFound)
               else if client.req.Renew? then
                 (l[client.vehicle := Hold(client.req.sid, client.req.op, s.now + ttl)], Ok)
               else (l - {client.vehicle}, Ok)
    requires HeldBy(LockOf(s), client.vehicle, client.req.sid) ==>
               && s.st.lease[client.vehicle].value.operatorId == client.req.op
               && s.st.lease[client.vehicle].value.status == SessionStatus.Active
    requires Lookup(s.st.index, client.req.sid, s.now) == Some(client.vehicle)
        <==> HeldBy(LockOf(s), client.vehicle, client.req.sid)
    ensures ScriptAgrees(s, client, ttl)
  {
    ScriptMeansAtomic(s.st, client, ttl, s.now);
  }

  // The script does what the atomic request does; only the answer of a stolen release differs.
  ghost predicate ScriptAgrees(s: Sys, client: Client, ttl: int)
    requires client.RunningScript?
  {
    var (c', st') := ClientStep(client, s.st, s.now, ttl);
    var (l', r) := AtomicRequest(LockOf(s), client.req, ttl, s.now);
    && c'.Done? && LockAt(st', s.now) == l'
    && c'.outcome == (if Stolen(s, client) then NotOwner else r)
    && (Stolen(s, client) ==> r == NotFound)
  }

  lemma ScriptIsAtomic(s: Sys, client: Client, ttl: int)
    requires Inv(s, ttl) && ttl > 0 && client.RunningScript? && ClientOk(client, s.past, s.now, ttl)
    ensures ScriptAgrees(s, client, ttl)
  {
    ScriptSeesHolder(s, client, ttl);
    IndexFindsHolder(s, client.vehicle, client.req.sid, ttl);
    ScriptMatchesRequest(s, client, ttl);
  }

  // ---------- whole runs ----------

  // What an observer of the lock sees: time passing, and finished operations with the answer the caller got.
  datatype Event =
    | Elapse(d: nat)
    | Acquired(session: ControlSession, answer: Outcome)
    | Requested(req: Request, answer: Outcome)

  function EventOfStep(c: Client, c': Client): seq<Event>
    requires !c.Done?
  {
    if !c'.Done? then []
    else if c.Acquiring? then [Acquired(c.session, c'.outcome)]
    else [Requested(c.req, c'.outcome)]
  }

  // The linearization point of an action, if it has one.
  function EventOf(s: Sys, a: Action, ttl: int): seq<Event> {
    match a
    case Tick(d) => [Elapse(d)]
    case Advance(c) =>
      if Idle(s, c) || c !in s.clients then []
      else EventOfStep(s.clients[c], ClientStep(s.clients[c], s.st, s.now, ttl).0)
    case _ => []
  }

  function Events(s: Sys, acts: seq<Action>, ttl: int): seq<Event>
    decreases |acts|
  {
    if acts == [] then [] else EventOf(s, acts[0], ttl) + Events(Apply(s, acts[0], ttl), acts[1..], ttl)
  }

  // The caller's answer against the lock's. They differ only when a release finds no session.
  predicate Answers(req: Request, atomic: Outcome, answer: Outcome) {
    answer == atomic || (req.Release? && atomic == NotFound && answer == NotOwner)
  }

  // Replaying the events on the atomic lock, from (l, now) to (l', now'), gives every caller's answer.
  ghost predicate Replays(l: Lock, now: int, evs: seq<Event>, ttl: int, l': Lock, now': int)
    decreases |evs|
  {
    if evs == [] then l == l' && now == now'
    else match evs[0]
      case Elapse(d) => Replays(AtomicExpire(l, now + d), now + d, evs[1..], ttl, l', now')
      case Acquired(r, answer) =>
        AtomicAcquire(l, r, ttl, now).1 == answer && Replays(AtomicAcquire(l, r, ttl, now).0, now, evs[1..], ttl, l', now')
      case Requested(req, answer) =>
        Answers(req, AtomicRequest(l, req, ttl, now).1, answer)
        && Replays(AtomicRequest(l, req, ttl, now).0, now, evs[1..], ttl, l', now')
  }

  lemma OneRequestReplays(l: Lock, now: int, req: Request, answer: Outcome, ttl: int, l': Lock)
    requires AtomicRequest(l, req, ttl, now).0 == l' && Answers(req, AtomicRequest(l, req, ttl, now).1, answer)
    ensures Replays(l, now, [Requested(req, answer)], ttl, l', now)
  {
    assert [Requested(req, answer)][1..] == [];
  }

  lemma OneAcquireReplays(l: Lock, now: int, r: ControlSession, answer: Outcome, ttl: int, l': Lock)
    requires AtomicAcquire(l, r, ttl, now) == (l', answer)
    ensures Replays(l, now, [Acquired(r, answer)], ttl, l', now)
  {
    assert [Acquired(r, answer)][1..] == [];
  }

  lemma AdvanceReplays(s: Sys, c: Client, ttl: int)
    requires Inv(s, ttl) && ttl > 0 && !c.Done? && ClientOk(c, s.past, s.now, ttl)
    ensures var (c', st') := ClientStep(c, s.st, s.now, ttl);
            Replays(LockOf(s), s.now, EventOfStep(c, c'), ttl, LockAt(st', s.now), s.now)
  {
    var (c', st') := ClientStep(c, s.st, s.now, ttl);
    if c.Acquiring? {
      AcquireIsAtomic(s.st, c.session, ttl, s.now);
      OneAcquireReplays(LockOf(s), s.now, c.session, c'.outcome, ttl, LockAt(st', s.now));
    } else if c.RunningScript? {
      ScriptIsAtomic(s, c, ttl);
      OneRequestReplays(LockOf(s), s.now, c.req, c'.outcome, ttl, LockAt(st', s.now));
    } else if !c.ReadingClock? {
      EarlyAnswerIsAtomic(s, c, ttl);
      if c'.Done? { OneRequestReplays(LockOf(s), s.now, c.req, c'.outcome, ttl, LockOf(s)); }
    }
  }

  lemma TickReplays(s: Sys, d: nat, ttl: int)
    ensures var s' := Apply(s, Tick(d), ttl);
            Replays(LockOf(s), s.now, EventOf(s, Tick(d), ttl), ttl, LockOf(s'), s'.now)
  {
    assert AtomicExpire(LockOf(s), s.now + d) == LockAt(s.st, s.now + d);
    assert [Elapse(d)][1..] == [];
  }

  lemma ClientReplays(s: Sys, c: nat, ttl: int)
    requires Inv(s, ttl) && ttl > 0 && c in s.clients && !s.clients[c].Done?
    ensures var s' := Apply(s, Advance(c), ttl);
            Replays(LockOf(s), s.now, EventOf(s, Advance(c), ttl), ttl, LockOf(s'), s'.now)
  {
    assert ClientOk(s.clients[c], s.past, s.now, ttl);
    AdvanceReplays(s, s.clients[c], ttl);
  }

  // Calling, and stepping a client that is done, are no events and change nothing the lock shows.
  lemma SilentStep(s: Sys, a: Action, ttl: int)
    requires !a.Tick? && (a.Advance? ==> a.c !in s.clients || s.clients[a.c].Done?)
    ensures var s' := Apply(s, a, ttl); EventOf(s, a, ttl) == [] && s'.st == s.st && s'.now == s.now
  {
  }

  lemma StepReplays(s: Sys, a: Action, ttl: int)
    requires Inv(s, ttl) && ttl > 0
    ensures var s' := Apply(s, a, ttl);
            Replays(LockOf(s), s.now, EventOf(s, a, ttl), ttl, LockOf(s'), s'.now)
  {
    if a.Tick? {
      TickReplays(s, a.d, ttl);
    } else if a.Advance? && a.c in s.clients && !s.clients[a.c].Done? {
      ClientReplays(s, a.c, ttl);
    } else {
      SilentStep(s, a, ttl);
    }
  }

  lemma {:induction false} ReplayConcat(l: Lock, n: int, a: seq<Event>, l1: Lock, n1: int, b: seq<Event>, l2: Lock, n2: int, ttl: int)
    requires Replays(l, n, a, ttl, l1, n1) && Replays(l1, n1, b, ttl, l2, n2)
    ensures Replays(l, n, a + b, ttl, l2, n2)
    decreases |a|
  {
    if a == [] {
      assert a + b == b;
    } else {
      assert (a + b)[1..] == a[1..] + b;
      match a[0]
      case Elapse(d) => ReplayConcat(AtomicExpire(l, n + d), n + d, a[1..], l1, n1, b, l2, n2, ttl);
      case Acquired(r, _) => ReplayConcat(AtomicAcquire(l, r, ttl, n).0, n, a[1..], l1, n1, b, l2, n2, ttl);
      case Requested(req, _) => ReplayConcat(AtomicRequest(l, req, ttl, n).0, n, a[1..], l1, n1, b, l2, n2, ttl);
    }
  }

  // Every interleaving of multi-step clients is a history of the atomic timed lock.
  lemma {:induction false} RunsLinearize(s: Sys, acts: seq<Action>, ttl: int)
    requires Inv(s, ttl) && ttl > 0
    ensures var s' := Run(s, acts, ttl);
            Replays(LockOf(s), s.now, Events(s, acts, ttl), ttl, LockOf(s'), s'.now)
    decreases |acts|
  {
    if acts != [] {
      var m := Apply(s, acts[0], ttl);
      StepReplays(s, acts[0], ttl);
      StepKeepsInv(s, acts[0], ttl);
      RunsLinearize(m, acts[1..], ttl);
      ReplayConcat(LockOf(s), s.now, EventOf(s, acts[0], ttl), LockOf(m), m.now, Events(m, acts[1..], ttl),
                   LockOf(Run(s, acts, ttl)), Run(s, acts, ttl).now, ttl);
    }
  }

  // In every reachable state live leases and live index entries are in bijection and lapse together;
  // a lease's record names its own vehicle and is ACTIVE; no session holds two vehicles.
  lemma LiveKeysAreInBijection(start: int, acts: seq<Action>, ttl: int, v: string, w: string, sid: string)
    requires ttl > 0
    ensures var s := Run(Init(start), acts, ttl);
            && (Lookup(s.st.index, sid, s.now) == Some(v) <==> HeldBy(LockOf(s), v, sid))
            && (HeldBy(LockOf(s), v, sid) ==>
                  && s.st.index[sid].deadline == s.st.lease[v].deadline
                  && s.st.lease[v].value.vehicleId == v
                  && s.st.lease[v].value.status == SessionStatus.Active)
            && (HeldBy(LockOf(s), v, sid) && HeldBy(LockOf(s), w, sid) ==> v == w)
  {
    var s := Run(Init(start), acts, ttl);
    RunKeepsInv(Init(start), acts, ttl);
    IndexFindsHolder(s, v, sid, ttl);
    IndexFindsHolder(s, w, sid, ttl);
  }

  // A renewal or release changes nothing that belongs to another session, whatever the store holds.
  lemma RequestsTouchOnlyTheirSession(st: Store, c: Client, ttl: int, now: int, v: string, other: string)
    requires c.RunningScript? && other != c.req.sid
    ensures var st' := ClientStep(c, st, now, ttl).1;
            && (v in st.lease && st.lease[v].value.sessionId == other ==> v in st'.lease && st'.lease[v] == st.lease[v])
            && (v in st'.lease && st'.lease[v].value.sessionId == other ==> v in st.lease && st'.lease[v] == st.lease[v])
            && (other in st.index <==> other in st'.index)
            && (other in st.index ==> st'.index[other] == st.index[other])
  {
  }

  // A successful renewal leaves the record as first built but for the expiry the client computed before
  // its script; that value may go back when renewals race, the Redis deadline never does.
  lemma RenewalWritesTheRecord(s: Sys, c: nat, ttl: int)
    requires Inv(s, ttl) && ttl > 0 && c in s.clients && s.clients[c].RunningScript? && s.clients[c].req.Renew?
    ensures var client := s.clients[c];
            var s' := Apply(s, Advance(c), ttl);
            s'.clients[c] == Done(Ok) ==>
              && client.vehicle in s.st.lease && client.req.sid in s.past.issued
              && s'.st.lease == s.st.lease[client.vehicle :=
                                  Entry(s.past.issued[client.req.sid].(expiresAt := client.expiresAt), s.now + ttl)]
              && s.st.lease[client.vehicle].deadline <= s'.st.lease[client.vehicle].deadline
  {
    var client := s.clients[c];
    if client.vehicle in s.st.lease {
      assert LeaseOk(client.vehicle, s.st.lease[client.vehicle], s.past, s.now, ttl);
    }
  }

  lemma {:induction false} IssuedForGood(s: Sys, acts: seq<Action>, ttl: int, sid: string)
    requires sid in s.past.issued
    ensures var h := Run(s, acts, ttl).past; sid in h.issued && h.issued[sid] == s.past.issued[sid]
    decreases |acts|
  {
    if acts != [] { IssuedForGood(Apply(s, acts[0], ttl), acts[1..], ttl, sid); }
  }

  // Two reads of a session's lease record, however far apart in a run, differ in the expiry only; so
  // the record a renewal hands back, its read one with the new expiry, is the one its script stored.
  lemma RecordsChangeInExpiryOnly(s: Sys, acts: seq<Action>, ttl: int, v: string, w: string)
    requires Inv(s, ttl) && ttl > 0 && v in s.st.lease
    requires w in Run(s, acts, ttl).st.lease
    requires Run(s, acts, ttl).st.lease[w].value.sessionId == s.st.lease[v].value.sessionId
    ensures var r, r' := s.st.lease[v].value, Run(s, acts, ttl).st.lease[w].value;
            v == w && r' == r.(expiresAt := r'.expiresAt)
  {
    var s' := Run(s, acts, ttl);
    RunKeepsInv(s, acts, ttl);
    IssuedForGood(s, acts, ttl, s.st.lease[v].value.sessionId);
    assert LeaseOk(v, s.st.lease[v], s.past, s.now, ttl) && LeaseOk(w, s'.st.lease[w], s'.past, s'.now, ttl);
  }

  // ---------- once gone, gone ----------

  ghost predicate Gone(s: Sys, sid: string) {
    sid in s.past.rank && forall v :: !HeldBy(LockOf(s), v, sid)
  }

  // No round trip gives a session that has won its lease before a hold it does not have now.
  lemma NoNewHold(st: Store, c: Client, h: History, now: int, ttl: int, sid: string, v: string)
    requires ttl > 0 && !c.Done? && ClientOk(c, h, now, ttl)
    requires sid in h.rank && HeldBy(LockAt(ClientStep(c, st, now, ttl).1, now), v, sid)
    ensures HeldBy(LockAt(st, now), v, sid)
  {
  }

  lemma StaysGoneStep(s: Sys, a: Action, ttl: int, sid: string)
    requires Inv(s, ttl) && ttl > 0 && Gone(s, sid)
    ensures Gone(Apply(s, a, ttl), sid)
  {
    forall v ensures !HeldBy(LockOf(Apply(s, a, ttl)), v, sid) {
      if HeldBy(LockOf(Apply(s, a, ttl)), v, sid) && a.Advance? && a.c in s.clients && !s.clients[a.c].Done? {
        NoNewHold(s.st, s.clients[a.c], s.past, s.now, ttl, sid, v);
      }
      assert HeldBy(LockOf(Apply(s, a, ttl)), v, sid) ==> HeldBy(LockOf(s), v, sid);
    }
  }

  // A session that expired or was released is never renewed, or otherwise brought, back.
  lemma {:induction false} GoneForGood(s: Sys, acts: seq<Action>, ttl: int, sid: string)
    requires Inv(s, ttl) && ttl > 0 && Gone(s, sid)
    ensures Gone(Run(s, acts, ttl), sid)
    decreases |acts|
  {
    if acts != [] {
      StaysGoneStep(s, acts[0], ttl, sid);
      StepKeepsInv(s, acts[0], ttl);
      GoneForGood(Apply(s, acts[0], ttl), acts[1..], ttl, sid);
    }
  }

  // ---------- the one answer that is not the lock's ----------

  function Booked(sid: string, op: string, ttl: int, now: int): ControlSession {
    ControlSession(sid, "car", op, "key", SessionStatus.Active, now, now + ttl)
  }

  // Ann's acquire, then both reads of her release.
  lemma ReadyToRelease(ttl: int) returns (acts: seq<Action>)
    requires ttl > 0
    ensures var s := Run(Init(0), acts, ttl);
            && s.now == 0 && s.past.issued.Keys == {"a"}
            && s.st.lease == map["car" := Entry(Booked("a", "ann", ttl, 0), ttl)]
            && s.clients.Keys == {0, 1} && s.clients[1] == RunningScript(Release("a", "ann"), "car", 0)
  {
    var hold := AnnHolds(ttl);
    var ask := hold + [Call(1, Release("a", "ann"))];
    RunThenStep(Init(0), hold, Call(1, Release("a", "ann")), ttl);
    RunThenStep(Init(0), ask, Advance(1), ttl);
    assert Run(Init(0), ask + [Advance(1)], ttl).clients[1] == ReadingLease(Release("a", "ann"), "car");
    RunThenStep(Init(0), ask + [Advance(1)], Advance(1), ttl);
    acts := ask + [Advance(1)] + [Advance(1)];
  }

  lemma AnnHolds(ttl: int) returns (acts: seq<Action>)
    requires ttl > 0
    ensures var s := Run(Init(0), acts, ttl);
            && s.now == 0 && s.past.issued.Keys == {"a"} && s.clients == map[0 := Done(Ok)]
            && s.st.lease == map["car" := Entry(Booked("a", "ann", ttl, 0), ttl)]
            && s.st.index == map["a" := Entry("car", ttl)]
  {
    var a := Booked("a", "ann", ttl, 0);
    RunThenStep(Init(0), [], CallAcquire(0, a), ttl);
    RunThenStep(Init(0), [] + [CallAcquire(0, a)], Advance(0), ttl);
    acts := [] + [CallAcquire(0, a)] + [Advance(0)];
  }

  // Ann's release reads her lease, the lease lapses, Bob acquires, and Ann's script answers that she
  // does not own the session, although no such session is held any more.
  lemma StolenReleaseBlamesTheCaller(ttl: int) returns (acts: seq<Action>)
    requires ttl > 0
    ensures var s := Run(Init(0), acts, ttl);
            && 1 in s.clients && Stolen(s, s.clients[1])
            && Apply(s, Advance(1), ttl).clients[1] == Done(NotOwner)
            && AtomicRequest(LockOf(s), Release("a", "ann"), ttl, s.now) == (LockOf(s), NotFound)
  {
    var ready := ReadyToRelease(ttl);
    var b := Booked("b", "bob", ttl, ttl + 1);
    RunThenStep(Init(0), ready, Tick(ttl + 1), ttl);
    RunThenStep(Init(0), ready + [Tick(ttl + 1)], CallAcquire(2, b), ttl);
    RunThenStep(Init(0), ready + [Tick(ttl + 1)] + [CallAcquire(2, b)], Advance(2), ttl);
    acts := ready + [Tick(ttl + 1)] + [CallAcquire(2, b)] + [Advance(2)];
    var s := Run(Init(0), acts, ttl);
    assert s.st.lease == map["car" := Entry(b, ttl + 1 + ttl)];
    assert forall v :: HeldBy(LockOf(s), v, "a") ==> v == "car";
  }
}
