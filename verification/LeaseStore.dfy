// The gateway's lease store: read-read-script sequences against the shared server.
module LeaseStore {
  import opened Types
  import opened ControlLease
  import opened RedisServer

  function StepsLeft(c: Client): nat {
    match c
    case FindingVehicle(_) => 4
    case ReadingLease(_, _) => 3
    case ReadingClock(_, _) => 2
    case Done(_) => 0
    case _ => 1
  }

  // One client run to its answer, with the rest of the system moving in each gap between its steps.
  function Drive(c: Client, st: Store, now: int, gaps: seq<seq<Interference>>, ttl: int): (Store, int, Outcome)
    decreases StepsLeft(c)
  {
    if c.Done? then (st, now, c.outcome)
    else
      var (c', st') := ClientStep(c, st, now, ttl);
      if c'.Done? then (st', now, c'.outcome)
      else
        var (st'', now') := After(st', now, if gaps == [] then [] else gaps[0], ttl);
        Drive(c', st'', now', if gaps == [] then [] else gaps[1..], ttl)
  }

  // Two steps of a drive that its reads do not end.
  lemma DriveTwo(c: Client, st: Store, now: int, g: seq<seq<Interference>>, ttl: int)
    requires c.FindingVehicle? && |g| >= 2
    ensures var (c1, _) := ClientStep(c, st, now, ttl);
            if c1.Done? then Drive(c, st, now, g, ttl) == (st, now, c1.outcome)
            else
              var (st1, n1) := After(st, now, g[0], ttl);
              var (c2, _) := ClientStep(c1, st1, n1, ttl);
              if c2.Done? then Drive(c, st, now, g, ttl) == (st1, n1, c2.outcome)
              else
                var (st2, n2) := After(st1, n1, g[1], ttl);
                Drive(c, st, now, g, ttl) == Drive(c2, st2, n2, g[2..], ttl)
  {
    assert g[1..][1..] == g[2..];
  }

  // The client, the store and the instant a drive meets just before the step that answers it.
  function BeforeAnswer(c: Client, st: Store, now: int, gaps: seq<seq<Interference>>, ttl: int): (Client, Store, int)
    requires !c.Done?
    decreases StepsLeft(c)
  {
    var (c', st') := ClientStep(c, st, now, ttl);
    if c'.Done? then (c, st, now)
    else
      var (st'', now') := After(st', now, if gaps == [] then [] else gaps[0], ttl);
      BeforeAnswer(c', st'', now', if gaps == [] then [] else gaps[1..], ttl)
  }

  // The lease of the vehicle is, at this instant, exactly the caller's session; to renew, it must also
  // be ACTIVE and indexed.
  predicate OwnsLease(req: Request, v: string, seen: Store, at: int) {
    && v in seen.lease && at <= seen.lease[v].deadline
    && seen.lease[v].value.sessionId == req.sid && seen.lease[v].value.operatorId == req.op
    && (req.Renew? ==>
          && seen.lease[v].value.status == SessionStatus.Active
          && req.sid in seen.index && at <= seen.index[req.sid].deadline && seen.index[req.sid].value == v)
  }

  // A store that differs from another at most in one lease and one index entry.
  ghost predicate SameButFor(st: Store, st': Store, v: string, sid: string) {
    && st'.video == st.video && st'.viewer == st.viewer
    && (forall w :: w != v ==> (w in st'.lease <==> w in st.lease) && (w in st.lease ==> st'.lease[w] == st.lease[w]))
    && (forall t :: t != sid ==> (t in st'.index <==> t in st.index) && (t in st.index ==> st'.index[t] == st.index[t]))
  }

  // What a granted request leaves behind: both keys of the session for a full lease time, the record
  // changed in its expiry only; or neither key.
  ghost predicate Granted(c: Client, seen: Store, at: int, ttl: int, end: Store)
    requires c.RunningScript? && c.vehicle in seen.lease
  {
    && SameButFor(seen, end, c.vehicle, c.req.sid)
    && (c.req.Renew? ==>
          && c.vehicle in end.lease && c.req.sid in end.index
          && end.lease[c.vehicle] == Entry(seen.lease[c.vehicle].value.(expiresAt := c.expiresAt), at + ttl)
          && end.index[c.req.sid] == Entry(c.vehicle, at + ttl))
    && (c.req.Release? ==> c.vehicle !in end.lease && c.req.sid !in end.index)
  }

  // A request succeeds if and only if it reaches its script and the store its script meets holds exactly
  // the caller's live session; it then changes that lease and its index as granted. Otherwise its last
  // step changes nothing.
  lemma {:induction false} SuccessNeedsTheExactSession(c: Client, st: Store, now: int, gaps: seq<seq<Interference>>, ttl: int)
    requires !c.Done? && !c.Acquiring?
    ensures var (end, at, r) := Drive(c, st, now, gaps, ttl);
            var (last, seen, instant) := BeforeAnswer(c, st, now, gaps, ttl);
            && at == instant && !last.Done? && !last.Acquiring? && last.req == c.req
            && (r == Ok <==> last.RunningScript? && OwnsLease(c.req, last.vehicle, seen, at))
            && (r == Ok ==> Granted(last, seen, at, ttl, end))
            && (r != Ok ==> end == seen)
    decreases StepsLeft(c)
  {
    var (c', st') := ClientStep(c, st, now, ttl);
    if !c'.Done? {
      var (st'', now') := After(st', now, if gaps == [] then [] else gaps[0], ttl);
      SuccessNeedsTheExactSession(c', st'', now', if gaps == [] then [] else gaps[1..], ttl);
    } else if c.RunningScript? {
      ScriptGrants(c, st, now, ttl);
    }
  }

  // An acquire is granted if and only if the vehicle has no live lease. It then sets exactly the two keys
  // of its session, for a full lease time, and changes nothing else in Redis; refused, it changes nothing.
  lemma AcquireSetsTwoKeys(st: Store, s: ControlSession, now: int, ttl: int)
    ensures var (c', st') := ClientStep(Acquiring(s), st, now, ttl);
            var held := s.vehicleId in st.lease && now <= st.lease[s.vehicleId].deadline;
            && c' == Done(if held then LeaseHeld else Ok)
            && (held ==> st' == st)
            && (!held ==>
                  && SameButFor(st, st', s.vehicleId, s.sessionId)
                  && s.vehicleId in st'.lease && st'.lease[s.vehicleId] == Entry(s, now + ttl)
                  && s.sessionId in st'.index && st'.index[s.sessionId] == Entry(s.vehicleId, now + ttl))
  {
  }

  lemma ScriptGrants(c: Client, st: Store, now: int, ttl: int)
    requires c.RunningScript?
    ensures var (c', st') := ClientStep(c, st, now, ttl);
            && (c' == Done(Ok) <==> OwnsLease(c.req, c.vehicle, st, now))
            && (c' == Done(Ok) ==> Granted(c, st, now, ttl, st'))
            && (c' != Done(Ok) ==> st' == st)
  {
  }

  // Where a renewal stands just before its script, if both of its reads found the caller's session.
  lemma RenewalsLastStep(c: Client, st: Store, now: int, g: seq<seq<Interference>>, ttl: int)
    requires c.FindingVehicle? && c.req.Renew? && |g| == 3
    ensures var (c1, _) := ClientStep(c, st, now, ttl);
            var (st1, n1) := After(st, now, g[0], ttl);
            c1.ReadingLease? ==>
              var (c2, _) := ClientStep(c1, st1, n1, ttl);
              c2.ReadingClock? ==>
                BeforeAnswer(c, st, now, g, ttl).0 == RunningScript(c.req, c2.vehicle, After(st1, n1, g[1], ttl).1 + ttl)
  {
    assert g[1..][0] == g[1] && g[1..][1..] == g[2..] && g[2..][0] == g[2];
    var (c1, _) := ClientStep(c, st, now, ttl);
    var (st1, n1) := After(st, now, g[0], ttl);
    if c1.ReadingLease? {
      assert BeforeAnswer(c, st, now, g, ttl) == BeforeAnswer(c1, st1, n1, g[1..], ttl);
      var (c2, _) := ClientStep(c1, st1, n1, ttl);
      var (st2, n2) := After(st1, n1, g[1], ttl);
      if c2.ReadingClock? {
        assert BeforeAnswer(c1, st1, n1, g[1..], ttl) == BeforeAnswer(c2, st2, n2, g[2..], ttl);
        var c3 := ClientStep(c2, st2, n2, ttl).0;
        var (st3, n3) := After(st2, n2, g[2], ttl);
        assert ClientStep(c3, st3, n3, ttl).0.Done?;
        assert BeforeAnswer(c2, st2, n2, g[2..], ttl) == BeforeAnswer(c3, st3, n3, g[2..][1..], ttl);
      }
    }
  }

  class ControlLeaseStore {
    const client: Redis
    const ttl: int

    constructor (client: Redis, ttl: int)
      ensures this.client == client && this.ttl == if ttl <= 0 then 30000 else ttl
    {
      this.client := client;
      this.ttl := if ttl <= 0 then 30000 else ttl;
    }

    method AcquireControlSession(session: ControlSession) returns (r: Outcome)
      requires client.Valid()
      modifies client
      ensures client.Valid()
      ensures (client.view, client.now, r) == Drive(Acquiring(session), old(client.view), old(client.now), [], ttl)
      ensures r != Ok ==> client.view == old(client.view)
      ensures r == Ok ==> SameButFor(old(client.view), client.view, session.vehicleId, session.sessionId)
    {
      AcquireSetsTwoKeys(client.view, session, client.now, ttl);
      var result := client.Acquire(session, ttl);
      r := if result == 0 then LeaseHeld else Ok;
    }

    method GetControlSession(v: string) returns (r: Option<ControlSession>)
      requires client.Valid()
      ensures r == Lookup(client.view.lease, v, client.now)
    {
      r := client.GetLease(v);
    }

    // getSessionByID: the index names the vehicle, the vehicle's lease must still name the session.
    method GetSessionByID(sid: string, gap: seq<Interference>) returns (r: Option<ControlSession>)
      requires client.Valid()
      modifies client
      ensures client.Valid()
      ensures match Lookup(old(client.view).index, sid, old(client.now))
              case None => r == None && client.view == old(client.view) && client.now == old(client.now)
              case Some(v) =>
                && (client.view, client.now) == After(old(client.view), old(client.now), gap, ttl)
                && r == match Lookup(client.view.lease, v, client.now)
                        case None => None
                        case Some(s) => if s.sessionId == sid then Some(s) else None
    {
      var v := client.GetIndex(sid);
      if v.None? {
        return None;
      }
      client.Interfere(gap, ttl);
      var s := GetControlSession(v.value);
      r := if s.Some? && s.value.sessionId == sid then s else None;
    }

    // The record returned is the one read, with the expiry the script was given.
    method RenewControlSession(sid: string, op: string, gap1: seq<Interference>, gap2: seq<Interference>, gap3: seq<Interference>)
      returns (r: Outcome, renewed: Option<ControlSession>)
      requires client.Valid()
      modifies client
      ensures client.Valid()
      ensures (client.view, client.now, r) ==
                Drive(FindingVehicle(Renew(sid, op)), old(client.view), old(client.now), [gap1, gap2, gap3], ttl)
      ensures renewed.Some? <==> r == Ok
      ensures r == Ok ==>
                var (st1, n1) := After(old(client.view), old(client.now), gap1, ttl);
                var (_, n2) := After(st1, n1, gap2, ttl);
                && sid in old(client.view).index && old(client.view).index[sid].value in st1.lease
                && renewed.value == st1.lease[old(client.view).index[sid].value].value.(expiresAt := n2 + ttl)
                && BeforeAnswer(FindingVehicle(Renew(sid, op)), old(client.view), old(client.now), [gap1, gap2, gap3], ttl).0
                   == RunningScript(Renew(sid, op), renewed.value.vehicleId, renewed.value.expiresAt)
    {
      assert [gap1, gap2, gap3][2..] == [gap3] && [gap3][1..] == [];
      RenewalsLastStep(FindingVehicle(Renew(sid, op)), client.view, client.now, [gap1, gap2, gap3], ttl);
      DriveTwo(FindingVehicle(Renew(sid, op)), client.view, client.now, [gap1, gap2, gap3], ttl);
      renewed := None;
      var session := GetSessionByID(sid, gap1);
      if session.None? {
        return NotFound, None;
      }
      if session.value.operatorId != op {
        return NotOwner, None;
      }
      client.Interfere(gap2, ttl);
      var expiresAt := client.now + ttl;
      client.Interfere(gap3, ttl);
      var result := client.Renew(session.value.vehicleId, sid, op, expiresAt, ttl);
      r := ScriptOutcome(result);
      if r == Ok {
        renewed := Some(session.value.(expiresAt := expiresAt));
      }
    }

    method ReleaseControlSession(sid: string, op: string, gap1: seq<Interference>, gap2: seq<Interference>)
      returns (r: Outcome)
      requires client.Valid()
      modifies client
      ensures client.Valid()
      ensures (client.view, client.now, r) ==
                Drive(FindingVehicle(Release(sid, op)), old(client.view), old(client.now), [gap1, gap2], ttl)
    {
      assert [gap1, gap2][2..] == [];
      DriveTwo(FindingVehicle(Release(sid, op)), client.view, client.now, [gap1, gap2], ttl);
      var session := GetSessionByID(sid, gap1);
      if session.None? {
        return NotFound;
      }
      if session.value.operatorId != op {
        return NotOwner;
      }
      client.Interfere(gap2, ttl);
      var result := client.Release(session.value.vehicleId, sid, op);
      r := ScriptOutcome(result);
    }
  }
}
