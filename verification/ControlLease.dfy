// The three atomic lease scripts, and the clients that call them after reads that may be stale.
module ControlLease {
  import opened Types

  // Script results are the integers the scripts return.
  function AcquireScript(st: Store, s: ControlSession, ttl: int, now: int): (Store, int) {
    if Lookup(st.lease, s.vehicleId, now).Some? then (st, 0)
    else (st.(lease := st.lease[s.vehicleId := Entry(s, now + ttl)],
              index := st.index[s.sessionId := Entry(s.vehicleId, now + ttl)]), 1)
  }

  function RenewScript(st: Store, v: string, sid: string, op: string, expiresAt: int, ttl: int, now: int): (Store, int) {
    match Lookup(st.lease, v, now)
    case None => (st, 0)
    case Some(s) =>
      if Lookup(st.index, sid, now) != Some(v) then (st, 0)
      else if s.sessionId != sid || s.operatorId != op || s.status != SessionStatus.Active then (st, -1)
      else (st.(lease := st.lease[v := Entry(s.(expiresAt := expiresAt), now + ttl)],
                index := st.index[sid := Entry(v, now + ttl)]), 1)
  }

  function ReleaseScript(st: Store, v: string, sid: string, op: string, now: int): (Store, int) {
    match Lookup(st.lease, v, now)
    case None => (st, 0)
    case Some(s) =>
      if s.sessionId != sid || s.operatorId != op then (st, -1)
      else (st.(lease := st.lease - {v}, index := st.index - {sid}), 1)
  }

  datatype Outcome = Ok | LeaseHeld | NotFound | NotOwner

  datatype Request = Renew(sid: string, op: string) | Release(sid: string, op: string)

  // A gateway client between two of its Redis round trips, with what its reads told it so far.
  datatype Client =
    | Acquiring(session: ControlSession)
    | FindingVehicle(req: Request)
    | ReadingLease(req: Request, vehicle: string)
    | ReadingClock(req: Request, vehicle: string)
    | RunningScript(req: Request, vehicle: string, expiresAt: int)
    | Done(outcome: Outcome)

  function ScriptOutcome(result: int): Outcome {
    if result == 0 then NotFound else if result < 0 then NotOwner else Ok
  }

  // One round trip (or one clock read) of a client.
  function ClientStep(c: Client, st: Store, now: int, ttl: int): (Client, Store)
    requires !c.Done?
  {
    match c
    case Acquiring(s) =>
      var (st', r) := AcquireScript(st, s, ttl, now);
      (Done(if r == 0 then LeaseHeld else Ok), st')
    case FindingVehicle(req) =>
      (match Lookup(st.index, req.sid, now)
       case None => Done(NotFound)
       case Some(v) => ReadingLease(req, v), st)
    case ReadingLease(req, v) =>
      (match Lookup(st.lease, v, now)
       case None => Done(NotFound)
       case Some(s) =>
         if s.sessionId != req.sid then Done(NotFound)
         else if s.operatorId != req.op then Done(NotOwner)
         else if req.Renew? then ReadingClock(req, s.vehicleId)
         else RunningScript(req, s.vehicleId, 0), st)
    case ReadingClock(req, v) =>
      (RunningScript(req, v, now + ttl), st)
    case RunningScript(req, v, expiresAt) =>
      var (st', r) := if req.Renew? then RenewScript(st, v, req.sid, req.op, expiresAt, ttl, now)
                      else ReleaseScript(st, v, req.sid, req.op, now);
      (Done(ScriptOutcome(r)), st')
  }
}
