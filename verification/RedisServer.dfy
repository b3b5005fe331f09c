// The Redis server as the gateway sees it: one flat keyspace, one clock, scripts that run at one instant.
module RedisServer {
  import opened Types
  import opened Keyspace
  import opened ControlLease

  // What may happen between two round trips of one client: time passes, another lease client takes a
  // step, or somebody sets or deletes a key.
  datatype Interference =
    | Pass(d: nat)
    | Other(client: Client)
    | Write(p: string, id: string, x: Payload, px: int)
    | Erase(p: string, id: string)

  function After(st: Store, now: int, gap: seq<Interference>, ttl: int): (Store, int)
    decreases |gap|
  {
    if gap == [] then (st, now)
    else match gap[0]
      case Pass(d) => After(st, now + d, gap[1..], ttl)
      case Other(c) => After(if c.Done? then st else ClientStep(c, st, now, ttl).1, now, gap[1..], ttl)
      case Write(p, id, x, px) =>
        After(if IsPrefix(p) && Fits(p, x) then Put(st, p, id, Entry(x, now + px)) else st, now, gap[1..], ttl)
      case Erase(p, id) => After(if IsPrefix(p) then Drop(st, p, id) else st, now, gap[1..], ttl)
  }

  class Redis {
    var db: Db
    var now: int
    ghost var view: Store

    ghost predicate Valid()
      reads this
    {
      Represents(db, view)
    }

    constructor (start: int)
      ensures Valid() && view == EMPTY_STORE && now == start
    {
      db := map[];
      now := start;
      view := EMPTY_STORE;
    }

    method Get(key: string) returns (r: Option<Payload>)
      ensures r == Lookup(db, key, now)
    {
      r := if key in db && now <= db[key].deadline then Some(db[key].value) else None;
    }

    // SET key value PX px
    method Set(p: string, id: string, x: Payload, px: int)
      requires Valid() && IsPrefix(p) && Fits(p, x)
      modifies this`db, this`view
      ensures Valid() && view == Put(old(view), p, id, Entry(x, now + px))
    {
      SetRefines(db, view, p, id, Entry(x, now + px));
      db := db[p + id := Entry(x, now + px)];
      view := Put(view, p, id, Entry(x, now + px));
    }

    method Del(p: string, id: string)
      requires Valid() && IsPrefix(p)
      modifies this`db, this`view
      ensures Valid() && view == Drop(old(view), p, id)
    {
      DelRefines(db, view, p, id);
      db := db - {p + id};
      view := Drop(view, p, id);
    }

    method GetLease(v: string) returns (r: Option<ControlSession>)
      requires Valid()
      ensures r == Lookup(view.lease, v, now)
    {
      var raw := Get(LEASE + v);
      assert At(db, LEASE + v) == StoredAt(view, LEASE, v);
      r := if raw.Some? then Some(raw.value.session) else None;
    }

    method GetIndex(sid: string) returns (r: Option<string>)
      requires Valid()
      ensures r == Lookup(view.index, sid, now)
    {
      var raw := Get(INDEX + sid);
      assert At(db, INDEX + sid) == StoredAt(view, INDEX, sid);
      r := if raw.Some? then Some(raw.value.text) else None;
    }

    method GetVideo(v: string) returns (r: Option<VideoSession>)
      requires Valid()
      ensures r == Lookup(view.video, v, now)
    {
      var raw := Get(VIDEO + v);
      assert At(db, VIDEO + v) == StoredAt(view, VIDEO, v);
      r := if raw.Some? then Some(raw.value.video) else None;
    }

    method GetViewer(sid: string) returns (r: Option<string>)
      requires Valid()
      ensures r == Lookup(view.viewer, sid, now)
    {
      var raw := Get(VIEWER + sid);
      assert At(db, VIEWER + sid) == StoredAt(view, VIEWER, sid);
      r := if raw.Some? then Some(raw.value.text) else None;
    }

    method Acquire(s: ControlSession, ttl: int) returns (result: int)
      requires Valid()
      modifies this`db, this`view
      ensures Valid() && (view, result) == AcquireScript(old(view), s, ttl, now)
    {
      var held := GetLease(s.vehicleId);
      if held.Some? {
        return 0;
      }
      Set(LEASE, s.vehicleId, SessionJson(s), ttl);
      Set(INDEX, s.sessionId, Text(s.vehicleId), ttl);
      result := 1;
    }

    method Renew(v: string, sid: string, op: string, expiresAt: int, ttl: int) returns (result: int)
      requires Valid()
      modifies this`db, this`view
      ensures Valid() && (view, result) == RenewScript(old(view), v, sid, op, expiresAt, ttl, now)
    {
      var raw := GetLease(v);
      if raw.None? {
        return 0;
      }
      var indexed := GetIndex(sid);
      if indexed != Some(v) {
        return 0;
      }
      var session := raw.value;
      if session.sessionId != sid || session.operatorId != op || session.status != SessionStatus.Active {
        return -1;
      }
      session := session.(expiresAt := expiresAt);
      Set(LEASE, v, SessionJson(session), ttl);  // XX: both keys were just read
      Set(INDEX, sid, Text(v), ttl);
      result := 1;
    }

    method Release(v: string, sid: string, op: string) returns (result: int)
      requires Valid()
      modifies this`db, this`view
      ensures Valid() && (view, result) == ReleaseScript(old(view), v, sid, op, now)
    {
      var raw := GetLease(v);
      if raw.None? {
        return 0;
      }
      if raw.value.sessionId != sid || raw.value.operatorId != op {
        return -1;
      }
      Del(LEASE, v);
      Del(INDEX, sid);
      result := 1;
    }

    // Everything the rest of the system does while one client waits.
    method Interfere(gap: seq<Interference>, ttl: int)
      requires Valid()
      modifies this
      ensures Valid() && (view, now) == After(old(view), old(now), gap, ttl)
    {
      var i := 0;
      while i < |gap|
        invariant i <= |gap| && Valid()
        invariant After(view, now, gap[i..], ttl) == After(old(view), old(now), gap, ttl)
      {
        assert gap[i..][0] == gap[i] && gap[i..][1..] == gap[i + 1..];
        match gap[i] {
          case Pass(d) => now := now + d;
          case Other(c) =>
            if c.Acquiring? {
              var _ := Acquire(c.session, ttl);
            } else if c.RunningScript? && c.req.Renew? {
              var _ := Renew(c.vehicle, c.req.sid, c.req.op, c.expiresAt, ttl);
            } else if c.RunningScript? {
              var _ := Release(c.vehicle, c.req.sid, c.req.op);
            }
          case Write(p, id, x, px) =>
            if IsPrefix(p) && Fits(p, x) {
              Set(p, id, x, px);
            }
          case Erase(p, id) =>
            if IsPrefix(p) {
              Del(p, id);
            }
        }
        i := i + 1;
      }
    }
  }
}
