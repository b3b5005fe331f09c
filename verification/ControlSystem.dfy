// The shared gateway state: Redis, the clock, every in-flight client, and what has happened so far.
module ControlSystem {
  import opened Types
  import opened ControlLease

  datatype History = History(
    issued: map<string, ControlSession>,  // the record first built for each session id
    rank: map<string, nat>,               // the order in which sessions won their lease
    next: nat,
    released: map<string, int>)           // the instant a release script deleted the session

  datatype Sys = Sys(now: int, st: Store, clients: map<nat, Client>, past: History)

  datatype Action =
    | Tick(d: nat)
    | CallAcquire(c: nat, session: ControlSession)
    | Call(c: nat, req: Request)
    | Advance(c: nat)

  function Init(now: int): Sys {
    Sys(now, EMPTY_STORE, map[], History(map[], map[], 0, map[]))
  }

  predicate Idle(s: Sys, c: nat) {
    c in s.clients ==> s.clients[c].Done?
  }

  // The record handleAcquireControl builds: a fresh id, status ACTIVE, both instants from one clock reading.
  predicate Fresh(s: Sys, r: ControlSession, ttl: int) {
    && r.sessionId !in s.past.issued && r.status == SessionStatus.Active
    && r.createdAt == s.now && r.expiresAt == s.now + ttl
  }

  // What a finished round trip adds to the history.
  function Record(h: History, before: Client, after: Client, now: int): History {
    if before.Acquiring? && after == Done(Ok) then
      h.(rank := h.rank[before.session.sessionId := h.next], next := h.next + 1)
    else if before.RunningScript? && before.req.Release? && after == Done(Ok) then
      h.(released := h.released[before.req.sid := now])
    else h
  }

  // An action that is not enabled leaves the state as it is.
  function Apply(s: Sys, a: Action, ttl: int): Sys {
    match a
    case Tick(d) => s.(now := s.now + d)
    case CallAcquire(c, r) =>
      if Idle(s, c) && Fresh(s, r, ttl)
      then s.(clients := s.clients[c := Acquiring(r)], past := s.past.(issued := s.past.issued[r.sessionId := r]))
      else s
    case Call(c, req) =>
      if Idle(s, c) then s.(clients := s.clients[c := FindingVehicle(req)]) else s
    case Advance(c) =>
      if Idle(s, c) || c !in s.clients then s
      else
        var (client', st') := ClientStep(s.clients[c], s.st, s.now, ttl);
        Sys(s.now, st', s.clients[c := client'], Record(s.past, s.clients[c], client', s.now))
  }

  function Run(s: Sys, acts: seq<Action>, ttl: int): Sys
    decreases |acts|
  {
    if acts == [] then s else Run(Apply(s, acts[0], ttl), acts[1..], ttl)
  }

  lemma {:induction false} RunConcat(s: Sys, a: seq<Action>, b: seq<Action>, ttl: int)
    ensures Run(s, a + b, ttl) == Run(Run(s, a, ttl), b, ttl)
    decreases |a|
  {
    if a == [] {
      assert a + b == b;
    } else {
      assert (a + b)[1..] == a[1..] + b;
      RunConcat(Apply(s, a[0], ttl), a[1..], b, ttl);
    }
  }

  lemma RunThenStep(s: Sys, acts: seq<Action>, a: Action, ttl: int)
    ensures Run(s, acts + [a], ttl) == Apply(Run(s, acts, ttl), a, ttl)
  {
    RunConcat(s, acts, [a], ttl);
    assert [a][1..] == [];
  }

  // ---------- the invariant ----------

  predicate OneWinner(rank: map<string, nat>, a: string, b: string) {
    a in rank && b in rank && rank[a] == rank[b] ==> a == b
  }

  ghost predicate HistoryOk(h: History, now: int) {
    && h.rank.Keys <= h.issued.Keys
    && h.released.Keys <= h.rank.Keys
    && (forall sid :: sid in h.issued ==> h.issued[sid].sessionId == sid)
    && (forall sid :: sid in h.rank ==> h.rank[sid] < h.next)
    && (forall a, b :: OneWinner(h.rank, a, b))
    && (forall sid :: sid in h.released ==> h.released[sid] <= now)
  }

  // What the lease entry of a vehicle says, whether it is live or has lapsed: it is the record first
  // built for the session but for its expiry, and its session is the latest the vehicle was given.
  ghost predicate LeaseOk(v: string, e: Entry<ControlSession>, h: History, now: int, ttl: int) {
    var sid := e.value.sessionId;
    && sid in h.issued && sid in h.rank && sid !in h.released
    && e.value == h.issued[sid].(expiresAt := e.value.expiresAt)
    && e.value.vehicleId == v && e.value.status == SessionStatus.Active
    && e.value.expiresAt <= e.deadline <= now + ttl
    && Latest(v, sid, h)
  }

  ghost predicate Latest(v: string, sid: string, h: History)
    requires sid in h.rank
  {
    forall a :: a in h.rank && a in h.issued && h.issued[a].vehicleId == v ==> h.rank[a] <= h.rank[sid]
  }

  // The index entry of a lease's session points back at the lease and lapses with it.
  ghost predicate PairOk(v: string, st: Store)
    requires v in st.lease
  {
    var sid := st.lease[v].value.sessionId;
    sid in st.index && st.index[sid] == Entry(v, st.lease[v].deadline)
  }

  // An index entry belongs to the vehicle the session was built for, and without its lease it has lapsed.
  ghost predicate IndexOk(sid: string, st: Store, h: History, now: int)
    requires sid in st.index
  {
    var v := st.index[sid].value;
    && sid in h.rank && sid in h.issued && h.issued[sid].vehicleId == v
    && ((v in st.lease && st.lease[v].value.sessionId == sid) || st.index[sid].deadline < now)
  }

  ghost predicate StoreOk(st: Store, h: History, now: int, ttl: int) {
    && (forall v :: v in st.lease ==> LeaseOk(v, st.lease[v], h, now, ttl))
    && (forall v :: v in st.lease ==> PairOk(v, st))
    && (forall sid :: sid in st.index ==> IndexOk(sid, st, h, now))
  }

  ghost predicate KnowsSession(req: Request, v: string, h: History) {
    req.sid in h.rank && req.sid in h.issued && h.issued[req.sid].vehicleId == v
  }

  ghost predicate ClientOk(c: Client, h: History, now: int, ttl: int) {
    match c
    case Acquiring(r) =>
      && r.sessionId in h.issued && h.issued[r.sessionId] == r && r.status == SessionStatus.Active
      && r.sessionId !in h.rank && r.expiresAt <= now + ttl
    case ReadingLease(req, v) => KnowsSession(req, v, h)
    case ReadingClock(req, v) => KnowsSession(req, v, h) && h.issued[req.sid].operatorId == req.op
    case RunningScript(req, v, expiresAt) =>
      KnowsSession(req, v, h) && h.issued[req.sid].operatorId == req.op && (req.Renew? ==> expiresAt <= now + ttl)
    case _ => true
  }

  // No two clients try to win a lease with the same session.
  predicate OwnRecord(clients: map<nat, Client>, c: nat, d: nat) {
    (c in clients && d in clients && c != d && clients[c].Acquiring? && clients[d].Acquiring?)
    ==> clients[c].session.sessionId != clients[d].session.sessionId
  }

  ghost predicate ClientsOk(clients: map<nat, Client>, h: History, now: int, ttl: int) {
    && (forall c :: c in clients ==> ClientOk(clients[c], h, now, ttl))
    && (forall c, d :: OwnRecord(clients, c, d))
  }

  ghost predicate Inv(s: Sys, ttl: int) {
    HistoryOk(s.past, s.now) && StoreOk(s.st, s.past, s.now, ttl) && ClientsOk(s.clients, s.past, s.now, ttl)
  }

  // After a granted acquire: the lease of one vehicle, and one index entry.
  lemma AcquiredLease(st: Store, h: History, r: ControlSession, now: int, ttl: int, v: string)
    requires HistoryOk(h, now) && ttl > 0 && ClientOk(Acquiring(r), h, now, ttl) && Lookup(st.lease, r.vehicleId, now).None?
    requires v in st.lease ==> LeaseOk(v, st.lease[v], h, now, ttl) && PairOk(v, st)
    ensures var st' := AcquireScript(st, r, ttl, now).0;
            v in st'.lease ==> LeaseOk(v, st'.lease[v], Record(h, Acquiring(r), Done(Ok), now), now, ttl) && PairOk(v, st')
  {
  }

  lemma AcquiredIndex(st: Store, h: History, r: ControlSession, now: int, ttl: int, sid: string)
    requires HistoryOk(h, now) && ClientOk(Acquiring(r), h, now, ttl) && Lookup(st.lease, r.vehicleId, now).None?
    requires sid in st.index ==> IndexOk(sid, st, h, now)
    requires r.vehicleId in st.lease ==> PairOk(r.vehicleId, st)
    ensures var st' := AcquireScript(st, r, ttl, now).0;
            sid in st'.index ==> IndexOk(sid, st', Record(h, Acquiring(r), Done(Ok), now), now)
  {
  }

  lemma AcquireKeepsStore(st: Store, h: History, r: ControlSession, now: int, ttl: int)
    requires HistoryOk(h, now) && StoreOk(st, h, now, ttl) && ttl > 0
    requires ClientOk(Acquiring(r), h, now, ttl) && Lookup(st.lease, r.vehicleId, now).None?
    ensures StoreOk(AcquireScript(st, r, ttl, now).0, Record(h, Acquiring(r), Done(Ok), now), now, ttl)
  {
    var st', h' := AcquireScript(st, r, ttl, now).0, Record(h, Acquiring(r), Done(Ok), now);
    forall v | v in st'.lease ensures LeaseOk(v, st'.lease[v], h', now, ttl) && PairOk(v, st') {
      AcquiredLease(st, h, r, now, ttl, v);
    }
    forall sid | sid in st'.index ensures IndexOk(sid, st', h', now) {
      AcquiredIndex(st, h, r, now, ttl, sid);
    }
  }

  lemma RenewKeepsStore(st: Store, h: History, req: Request, v: string, expiresAt: int, now: int, ttl: int)
    requires HistoryOk(h, now) && StoreOk(st, h, now, ttl) && ttl > 0 && expiresAt <= now + ttl
    ensures StoreOk(RenewScript(st, v, req.sid, req.op, expiresAt, ttl, now).0, h, now, ttl)
  {
    var (st', r) := RenewScript(st, v, req.sid, req.op, expiresAt, ttl, now);
    if r == 1 {
      forall w | w in st'.lease ensures LeaseOk(w, st'.lease[w], h, now, ttl) && PairOk(w, st') {
        assert LeaseOk(w, st.lease[w], h, now, ttl) && PairOk(w, st) && PairOk(v, st);
      }
      forall sid | sid in st'.index ensures IndexOk(sid, st', h, now) {
        assert sid in st.index ==> IndexOk(sid, st, h, now);
        assert LeaseOk(v, st.lease[v], h, now, ttl);
      }
    }
  }

  lemma ReleasedEntries(st: Store, h: History, v: string, now: int, ttl: int, w: string, sid: string)
    requires v in st.lease && PairOk(v, st)
    requires w in st.lease ==> LeaseOk(w, st.lease[w], h, now, ttl) && PairOk(w, st)
    requires sid in st.index ==> IndexOk(sid, st, h, now)
    ensures var gone := st.lease[v].value.sessionId;
            var st' := st.(lease := st.lease - {v}, index := st.index - {gone});
            var h' := h.(released := h.released[gone := now]);
            && (w in st'.lease ==> LeaseOk(w, st'.lease[w], h', now, ttl) && PairOk(w, st'))
            && (sid in st'.index ==> IndexOk(sid, st', h', now))
  {
  }

  lemma ReleaseKeepsStore(st: Store, h: History, req: Request, v: string, now: int, ttl: int)
    requires HistoryOk(h, now) && StoreOk(st, h, now, ttl) && ReleaseScript(st, v, req.sid, req.op, now).1 == 1
    ensures StoreOk(ReleaseScript(st, v, req.sid, req.op, now).0, h.(released := h.released[req.sid := now]), now, ttl)
  {
    var st', h' := ReleaseScript(st, v, req.sid, req.op, now).0, h.(released := h.released[req.sid := now]);
    forall w | w in st'.lease ensures LeaseOk(w, st'.lease[w], h', now, ttl) && PairOk(w, st') {
      ReleasedEntries(st, h, v, now, ttl, w, req.sid);
    }
    forall sid | sid in st'.index ensures IndexOk(sid, st', h', now) {
      ReleasedEntries(st, h, v, now, ttl, v, sid);
    }
  }

  lemma TickKeepsInv(s: Sys, d: nat, ttl: int)
    requires Inv(s, ttl)
    ensures Inv(s.(now := s.now + d), ttl)
  {
    forall v | v in s.st.lease ensures LeaseOk(v, s.st.lease[v], s.past, s.now + d, ttl) {
      assert LeaseOk(v, s.st.lease[v], s.past, s.now, ttl);
    }
    forall sid | sid in s.st.index ensures IndexOk(sid, s.st, s.past, s.now + d) {
      assert IndexOk(sid, s.st, s.past, s.now);
    }
    forall c | c in s.clients ensures ClientOk(s.clients[c], s.past, s.now + d, ttl) {
      assert ClientOk(s.clients[c], s.past, s.now, ttl);
    }
  }

  lemma IssueKeepsInv(s: Sys, c: nat, r: ControlSession, ttl: int)
    requires Inv(s, ttl) && Idle(s, c) && Fresh(s, r, ttl)
    ensures Inv(Apply(s, CallAcquire(c, r), ttl), ttl)
  {
    var s' := Apply(s, CallAcquire(c, r), ttl);
    forall v | v in s.st.lease ensures LeaseOk(v, s.st.lease[v], s'.past, s.now, ttl) {
      assert LeaseOk(v, s.st.lease[v], s.past, s.now, ttl);
    }
    forall sid | sid in s.st.index ensures IndexOk(sid, s.st, s'.past, s.now) {
      assert IndexOk(sid, s.st, s.past, s.now);
    }
    forall d | d in s'.clients ensures ClientOk(s'.clients[d], s'.past, s.now, ttl) {
      if d != c { assert ClientOk(s.clients[d], s.past, s.now, ttl); }
    }
    forall d, e ensures OwnRecord(s'.clients, d, e) {
      assert OwnRecord(s.clients, d, e);
      assert d in s.clients ==> ClientOk(s.clients[d], s.past, s.now, ttl);
      assert e in s.clients ==> ClientOk(s.clients[e], s.past, s.now, ttl);
    }
  }

  lemma StepKeepsInv(s: Sys, a: Action, ttl: int)
    requires Inv(s, ttl) && ttl > 0
    ensures Inv(Apply(s, a, ttl), ttl)
  {
    match a
    case Tick(d) => TickKeepsInv(s, d, ttl);
    case CallAcquire(c, r) => if Idle(s, c) && Fresh(s, r, ttl) { IssueKeepsInv(s, c, r, ttl); }
    case Call(c, req) => CallKeepsClients(s, c, req, ttl);
    case Advance(c) => if c in s.clients && !s.clients[c].Done? { AdvanceKeepsInv(s, c, ttl); }
  }

  lemma CallKeepsClients(s: Sys, c: nat, req: Request, ttl: int)
    requires ClientsOk(s.clients, s.past, s.now, ttl)
    ensures ClientsOk(Apply(s, Call(c, req), ttl).clients, s.past, s.now, ttl)
  {
    forall d, e ensures OwnRecord(Apply(s, Call(c, req), ttl).clients, d, e) {
      assert OwnRecord(s.clients, d, e);
    }
  }

  lemma RecordKeepsHistory(st: Store, h: History, c: Client, now: int, ttl: int)
    requires HistoryOk(h, now) && ClientOk(c, h, now, ttl) && !c.Done?
    ensures HistoryOk(Record(h, c, ClientStep(c, st, now, ttl).0, now), now)
  {
    forall a, b ensures OneWinner(Record(h, c, ClientStep(c, st, now, ttl).0, now).rank, a, b) {
      assert OneWinner(h.rank, a, b);
    }
  }

  // A client's next program point is justified by what this round trip saw.
  lemma StepKeepsClient(st: Store, h: History, c: Client, now: int, ttl: int)
    requires HistoryOk(h, now) && StoreOk(st, h, now, ttl) && ClientOk(c, h, now, ttl) && !c.Done? && ttl > 0
    ensures var c' := ClientStep(c, st, now, ttl).0;
            ClientOk(c', Record(h, c, c', now), now, ttl) && !c'.Acquiring?
  {
    match c
    case FindingVehicle(req) =>
      assert req.sid in st.index ==> IndexOk(req.sid, st, h, now);
    case ReadingLease(req, v) =>
      assert v in st.lease ==> LeaseOk(v, st.lease[v], h, now, ttl);
    case _ =>
  }

  // What one client does leaves every other client's knowledge valid.
  lemma StepKeepsOthers(st: Store, h: History, c: Client, d: Client, now: int, ttl: int)
    requires HistoryOk(h, now) && ClientOk(c, h, now, ttl) && ClientOk(d, h, now, ttl) && !c.Done?
    requires c.Acquiring? && d.Acquiring? ==> c.session.sessionId != d.session.sessionId
    ensures ClientOk(d, Record(h, c, ClientStep(c, st, now, ttl).0, now), now, ttl)
  {
  }

  lemma StepKeepsStore(st: Store, h: History, c: Client, now: int, ttl: int)
    requires HistoryOk(h, now) && StoreOk(st, h, now, ttl) && ClientOk(c, h, now, ttl) && !c.Done? && ttl > 0
    ensures var (c', st') := ClientStep(c, st, now, ttl);
            StoreOk(st', Record(h, c, c', now), now, ttl)
  {
    if c.Acquiring? {
      if Lookup(st.lease, c.session.vehicleId, now).None? { AcquireKeepsStore(st, h, c.session, now, ttl); }
    } else if c.RunningScript? && c.req.Renew? {
      RenewKeepsStore(st, h, c.req, c.vehicle, c.expiresAt, now, ttl);
    } else if c.RunningScript? {
      if ReleaseScript(st, c.vehicle, c.req.sid, c.req.op, now).1 == 1 {
        ReleaseKeepsStore(st, h, c.req, c.vehicle, now, ttl);
      }
    }
  }

  lemma StepKeepsClients(clients: map<nat, Client>, c: nat, st: Store, h: History, now: int, ttl: int)
    requires HistoryOk(h, now) && StoreOk(st, h, now, ttl) && ClientsOk(clients, h, now, ttl) && ttl > 0
    requires c in clients && !clients[c].Done?
    ensures var c' := ClientStep(clients[c], st, now, ttl).0;
            ClientsOk(clients[c := c'], Record(h, clients[c], c', now), now, ttl)
  {
    var c' := ClientStep(clients[c], st, now, ttl).0;
    var h' := Record(h, clients[c], c', now);
    assert ClientOk(c', h', now, ttl) && !c'.Acquiring? by {
      StepKeepsClient(st, h, clients[c], now, ttl);
    }
    forall d | d in clients && d != c ensures ClientOk(clients[d], h', now, ttl) {
      assert OwnRecord(clients, c, d);
      StepKeepsOthers(st, h, clients[c], clients[d], now, ttl);
    }
    var updated := clients[c := c'];
    forall d, e ensures OwnRecord(updated, d, e) {
      assert OwnRecord(clients, d, e);
    }
  }

  lemma AdvanceKeepsInv(s: Sys, c: nat, ttl: int)
    requires Inv(s, ttl) && ttl > 0 && c in s.clients && !s.clients[c].Done?
    ensures Inv(Apply(s, Advance(c), ttl), ttl)
  {
    RecordKeepsHistory(s.st, s.past, s.clients[c], s.now, ttl);
    StepKeepsStore(s.st, s.past, s.clients[c], s.now, ttl);
    StepKeepsClients(s.clients, c, s.st, s.past, s.now, ttl);
  }

  lemma {:induction false} RunKeepsInv(s: Sys, acts: seq<Action>, ttl: int)
    requires Inv(s, ttl) && ttl > 0
    ensures Inv(Run(s, acts, ttl), ttl)
    decreases |acts|
  {
    if acts != [] {
      StepKeepsInv(s, acts[0], ttl);
      RunKeepsInv(Apply(s, acts[0], ttl), acts[1..], ttl);
    }
  }
}
