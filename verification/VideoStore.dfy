// The gateway's video store, over the same Redis server as the leases. Each method takes what the rest of
// the system does before each of its round trips and clock readings.
module VideoStore {
  import opened Types
  import opened Keyspace
  import opened RedisServer
  import opened VideoRaces
  import V = VideoRecords

  type Gaps = seq<seq<Interference>>

  class VideoSessionStore {
    const client: Redis
    const gracePeriod: nat
    const ttl: int  // the lease time of the lease clients on the same server

    constructor (client: Redis, gracePeriod: nat, ttl: int)
      ensures this.client == client && this.gracePeriod == gracePeriod && this.ttl == ttl
    {
      this.client := client;
      this.gracePeriod := gracePeriod;
      this.ttl := ttl;
    }

    // How a request at this point would go on.
    ghost function Ahead(r: Racer, gaps: Gaps): (Store, int, Option<VideoSession>)
      reads client
    {
      Resume(r, client.view, client.now, gaps, gracePeriod, ttl)
    }

    method Pause(gaps: Gaps) returns (rest: Gaps)
      requires client.Valid()
      modifies client
      ensures client.Valid() && rest == Tail(gaps)
      ensures (client.view, client.now) == After(old(client.view), old(client.now), Head(gaps), ttl)
    {
      client.Interfere(Head(gaps), ttl);
      rest := Tail(gaps);
    }

    method Save(session: VideoSession)
      requires client.Valid()
      modifies client`db, client`view
      ensures client.Valid() && client.view == V.Save(old(client.view), session, client.now)
    {
      var session := session;
      if session.expiresAt == 0 {
        session := session.(expiresAt := client.now + V.DAY);
      }
      client.Set(VIDEO, session.vehicleId, VideoJson(session), V.DAY);
    }

    // Get, inside a request for `op` that drops the viewer index `sid`, or as that request itself.
    method Get(v: string, gaps: Gaps, ghost op: V.Op, ghost sid: string) returns (session: VideoSession, rest: Gaps)
      requires client.Valid()
      modifies client
      ensures client.Valid() && Ahead(Ready(v, session, op, sid), rest) == old(Ahead(Reading(v, op, sid), gaps))
    {
      rest := Pause(gaps);
      var raw := client.GetVideo(v);
      assert Ahead(Judging(v, raw, op, sid), rest) == old(Ahead(Reading(v, op, sid), gaps));
      rest := Pause(rest);
      if raw.None? {
        return V.Blank(v, client.now), rest;
      }
      session := raw.value;
      if session.mode == VideoMode.Active && session.viewers == 0 && session.controller == "" && session.graceDeadline > 0
         && client.now >= session.graceDeadline {
        session := session.(mode := VideoMode.Standby, graceDeadline := 0);
        assert Ahead(Resting(v, session, op, sid), rest) == old(Ahead(Reading(v, op, sid), gaps));
        rest := Pause(rest);
        Save(session);
      }
    }

    method AcquireViewer(v: string, uuid: string, gaps: Gaps) returns (session: VideoSession)
      requires client.Valid()
      modifies client
      ensures client.Valid() && (client.view, client.now, Some(session)) == old(Ahead(Reading(v, V.Join(uuid), ""), gaps))
    {
      ghost var op := V.Join(uuid);
      var rest;
      session, rest := Get(v, gaps, op, "");
      rest := Pause(rest);
      if session.sessionId == "" {
        session := session.(sessionId := uuid, createdAt := client.now);
      }
      session := session.(viewers := session.viewers + 1);
      session := session.(mode := VideoMode.Active);
      session := session.(graceDeadline := 0);
      assert Ahead(Saving(v, session, op), rest) == old(Ahead(Reading(v, op, ""), gaps));
      rest := Pause(rest);
      Save(session);
      assert Ahead(Indexing(v, session), rest) == old(Ahead(Reading(v, op, ""), gaps));
      rest := Pause(rest);
      client.Set(VIEWER, session.sessionId, Text(v), gracePeriod + V.HOUR);
      assert Ahead(Answered(Some(session)), rest) == old(Ahead(Reading(v, op, ""), gaps));
    }

    method ReleaseViewer(sid: string, gaps: Gaps) returns (r: Option<VideoSession>)
      requires client.Valid()
      modifies client
      ensures client.Valid() && (client.view, client.now, r) == old(Ahead(Finding(sid), gaps))
    {
      var rest := Pause(gaps);
      var v := client.GetViewer(sid);
      if v.None? {
        assert Ahead(Answered(None), rest) == old(Ahead(Finding(sid), gaps));
        return None;
      }
      assert Ahead(Reading(v.value, V.Leave, sid), rest) == old(Ahead(Finding(sid), gaps));
      var session;
      session, rest := Get(v.value, rest, V.Leave, sid);
      rest := Pause(rest);
      client.Del(VIEWER, sid);
      assert Ahead(Editing(v.value, session, V.Leave), rest) == old(Ahead(Finding(sid), gaps));
      var changed := if session.viewers > 0 then session.(viewers := session.viewers - 1) else session;
      session := SaveAfterViewerChange(v.value, session, V.Leave, changed, rest);
      r := Some(session);
    }

    method SetController(v: string, controlSessionId: string, uuid: string, gaps: Gaps) returns (session: VideoSession)
      requires client.Valid()
      modifies client
      ensures client.Valid()
      ensures (client.view, client.now, Some(session)) == old(Ahead(Reading(v, V.Take(controlSessionId, uuid), ""), gaps))
    {
      ghost var op := V.Take(controlSessionId, uuid);
      var rest;
      session, rest := Get(v, gaps, op, "");
      rest := Pause(rest);
      if session.sessionId == "" {
        session := session.(sessionId := uuid, createdAt := client.now);
      }
      session := session.(controller := controlSessionId);
      session := session.(mode := VideoMode.Active);
      session := session.(graceDeadline := 0);
      assert Ahead(Saving(v, session, op), rest) == old(Ahead(Reading(v, op, ""), gaps));
      rest := Pause(rest);
      Save(session);
      assert Ahead(Answered(Some(session)), rest) == old(Ahead(Reading(v, op, ""), gaps));
    }

    method ClearController(v: string, controlSessionId: string, gaps: Gaps) returns (session: VideoSession)
      requires client.Valid()
      modifies client
      ensures client.Valid()
      ensures (client.view, client.now, Some(session)) == old(Ahead(Reading(v, V.Quit(controlSessionId), ""), gaps))
    {
      ghost var op := V.Quit(controlSessionId);
      var rest;
      session, rest := Get(v, gaps, op, "");
      var changed := if session.controller == controlSessionId then session.(controller := "") else session;
      session := SaveAfterViewerChange(v, session, op, changed, rest);
    }

    // `changed` is the record `session` without the one who leaves; the deadline is set by the clock as it
    // is then, and saved in a later round trip.
    method SaveAfterViewerChange(ghost v: string, ghost session: VideoSession, ghost op: V.Op, changed: VideoSession, gaps: Gaps)
      returns (r: VideoSession)
      requires client.Valid()
      requires op.Leave? ==> changed == if session.viewers > 0 then session.(viewers := session.viewers - 1) else session
      requires op.Quit? ==> changed == if session.controller == op.controller then session.(controller := "") else session
      requires op.Leave? || op.Quit?
      modifies client
      ensures client.Valid() && (client.view, client.now, Some(r)) == old(Ahead(Editing(v, session, op), gaps))
      ensures exists now :: r == V.Settle(changed, gracePeriod, now)
    {
      var rest := Pause(gaps);
      ghost var now := client.now;
      r := changed;
      if r.viewers == 0 && r.controller == "" {
        r := r.(mode := VideoMode.Active, graceDeadline := client.now + gracePeriod);
      }
      assert r == V.Settle(changed, gracePeriod, now);
      assert Ahead(Saving(v, r, op), rest) == old(Ahead(Editing(v, session, op), gaps));
      rest := Pause(rest);
      Save(r);
      assert Ahead(Answered(Some(r)), rest) == old(Ahead(Editing(v, session, op), gaps));
    }
  }
}
