// The vehicle's check of control packets against the session it last fetched.
module VehicleVerifier {
  import opened Types
  import opened ControlProtocol

  datatype Limits = Limits(vehicleId: string, maxAge: nat, maxSkew: nat)

  // What json.loads yields: text that is not a packet with every required field is Garbage.
  datatype Message = Garbage | Json(packet: Packet)

  // The ideal signature: a text verifies under a key iff that key's owner signed it.
  datatype Signed = Signed(key: string, text: string, signature: string)

  // The gateway's answer to GET /api/vehicles/<id>/control, or the failure to get one.
  datatype Response = Missing | Failed | Reply(session: ControlSession, keyDecodes: bool)

  datatype Verifier = Verifier(session: Option<ControlSession>, lastSequence: int, lastValid: int)

  function Clear(v: Verifier): Verifier {
    v.(session := None, lastSequence := 0)
  }

  predicate Loads(r: Response, vehicleId: string) {
    r.Reply? && r.session.vehicleId == vehicleId && r.session.status == SessionStatus.Active && r.keyDecodes
  }

  // The half of refresh_session after its await; the half before it is Clear.
  function Finish(v: Verifier, previousId: Option<string>, previousSequence: int, r: Response, vehicleId: string): Verifier {
    if Loads(r, vehicleId) then
      v.(session := Some(r.session),
         lastSequence := if previousId == Some(r.session.sessionId) then previousSequence else v.lastSequence)
    else v
  }

  predicate Addressed(s: ControlSession, m: Message, identity: string) {
    && m.Json? && m.packet.version == PROTOCOL_VERSION && m.packet.kind == CONTROL_TYPE
    && m.packet.sessionId == s.sessionId && identity == "operator-" + s.operatorId
  }

  function VerifyPacket(v: Verifier, m: Message, identity: string, now: int, signed: set<Signed>, limits: Limits)
    : (r: (Verifier, Option<Packet>))
    ensures r.1.Some? ==> ValidCommand(r.1.value.command)
  {
    if v.session.None? || !Addressed(v.session.value, m, identity) then (v, None)
    else
      var s, p := v.session.value, m.packet;
      if now > s.expiresAt then (Clear(v), None)
      else if now - p.timestamp > limits.maxAge || p.timestamp - now > limits.maxSkew then (v, None)
      else if p.sequence <= v.lastSequence || !ValidCommand(p.command) then (v, None)
      else if Signed(s.publicKey, BuildSignMessage(p), p.signature) !in signed then (v, None)
      else (v.(lastSequence := p.sequence, lastValid := now), Some(p))
  }

  // Everything the vehicle asks of a packet but a new sequence number.
  predicate Eligible(s: ControlSession, m: Message, identity: string, now: int, signed: set<Signed>, limits: Limits) {
    && Addressed(s, m, identity)
    && now <= s.expiresAt
    && now - m.packet.timestamp <= limits.maxAge && m.packet.timestamp - now <= limits.maxSkew
    && ValidCommand(m.packet.command)
    && Signed(s.publicKey, BuildSignMessage(m.packet), m.packet.signature) in signed
  }

  // A packet is accepted exactly when it is eligible and newer than every one counted so far;
  // a rejected packet changes nothing, unless it exposes that the cached session has expired.
  lemma AcceptsExactly(v: Verifier, m: Message, identity: string, now: int, signed: set<Signed>, limits: Limits)
    ensures var (v', r) := VerifyPacket(v, m, identity, now, signed, limits);
            && (r.Some? <==> v.session.Some? && Eligible(v.session.value, m, identity, now, signed, limits)
                             && m.packet.sequence > v.lastSequence)
            && (r.Some? ==> r == Some(m.packet) && v' == Verifier(v.session, m.packet.sequence, now))
            && (r.None? ==> v' == if v.session.Some? && Addressed(v.session.value, m, identity)
                                     && now > v.session.value.expiresAt then Clear(v) else v)
  {
  }

  // The same check by check: which packets are accepted.
  lemma AcceptedIff(v: Verifier, m: Message, identity: string, now: int, signed: set<Signed>, limits: Limits)
    ensures VerifyPacket(v, m, identity, now, signed, limits).1.Some? <==>
              && v.session.Some? && m.Json?
              && var s, p := v.session.value, m.packet;
                 && p.version == 1 && p.kind == "control" && p.sessionId == s.sessionId
                 && identity == "operator-" + s.operatorId
                 && now <= s.expiresAt
                 && p.timestamp - limits.maxSkew <= now <= p.timestamp + limits.maxAge
                 && p.sequence > v.lastSequence && ValidCommand(p.command)
                 && Signed(s.publicKey, BuildSignMessage(p), p.signature) in signed
  {
  }

  // A refresh loads exactly the ACTIVE session of this vehicle whose key decodes, with the counter of that
  // same session or none; any other answer leaves the vehicle without a session. The instant of the last
  // command stays.
  lemma RefreshLoadsExactly(v: Verifier, r: Response, vehicleId: string)
    ensures var before := if v.session.Some? then Some(v.session.value.sessionId) else None;
            Finish(Clear(v), before, v.lastSequence, r, vehicleId) ==
              if r.Reply? && r.keyDecodes && r.session.vehicleId == vehicleId && r.session.status == SessionStatus.Active
              then Verifier(Some(r.session), if before == Some(r.session.sessionId) then v.lastSequence else 0, v.lastValid)
              else Verifier(None, 0, v.lastValid)
  {
  }

  // ---------- one loaded session over a lossy channel ----------

  datatype Delivery = Delivery(message: Message, identity: string, at: int)

  // Which deliveries, in order, are accepted.
  function Accepted(v: Verifier, ds: seq<Delivery>, signed: set<Signed>, limits: Limits): (flags: seq<bool>)
    ensures |flags| == |ds|
    decreases |ds|
  {
    if ds == [] then []
    else
      var (v', r) := VerifyPacket(v, ds[0].message, ds[0].identity, ds[0].at, signed, limits);
      [r.Some?] + Accepted(v', ds[1..], signed, limits)
  }

  predicate EligibleAt(s: ControlSession, d: Delivery, signed: set<Signed>, limits: Limits) {
    Eligible(s, d.message, d.identity, d.at, signed, limits)
  }

  // The number an eligible delivery carries.
  function Candidate(s: ControlSession, d: Delivery, signed: set<Signed>, limits: Limits): Option<int> {
    if EligibleAt(s, d, signed, limits) then Some(d.message.packet.sequence) else None
  }

  function Candidates(s: ControlSession, ds: seq<Delivery>, signed: set<Signed>, limits: Limits): (cs: seq<Option<int>>)
    ensures |cs| == |ds| && forall j :: 0 <= j < |ds| ==> cs[j] == Candidate(s, ds[j], signed, limits)
  {
    if ds == [] then [] else [Candidate(s, ds[0], signed, limits)] + Candidates(s, ds[1..], signed, limits)
  }

  // A strict running maximum above `last`.
  predicate Tops(cs: seq<Option<int>>, last: int, i: nat)
    requires i < |cs|
  {
    cs[i].Some? && cs[i].value > last && forall j :: 0 <= j < i && cs[j].Some? ==> cs[j].value < cs[i].value
  }

  // Which candidates, taken one by one, exceed the bar and all that exceeded it before.
  function Maxima(cs: seq<Option<int>>, last: int): (flags: seq<bool>)
    ensures |flags| == |cs|
  {
    if cs == [] then []
    else
      var tops := cs[0].Some? && cs[0].value > last;
      [tops] + Maxima(cs[1..], if tops then cs[0].value else last)
  }

  lemma {:induction false} MaximaTop(cs: seq<Option<int>>, last: int, i: nat)
    requires i < |cs|
    ensures Maxima(cs, last)[i] <==> Tops(cs, last, i)
    decreases i
  {
    if i > 0 {
      var tail := cs[1..];
      MaximaTop(tail, if cs[0].Some? && cs[0].value > last then cs[0].value else last, i - 1);
      assert forall j :: 0 <= j < i ==> tail[j] == cs[j + 1];
      assert forall j :: 1 <= j <= i ==> cs[j] == tail[j - 1];
    }
  }

  // One delivery to a loaded session: its number is accepted if it raises the bar, and becomes the bar.
  lemma OneDelivery(v: Verifier, s: ControlSession, d: Delivery, signed: set<Signed>, limits: Limits)
    requires v.session == Some(s)
    ensures var (v', r) := VerifyPacket(v, d.message, d.identity, d.at, signed, limits);
            var c := Candidate(s, d, signed, limits);
            && (r.Some? <==> c.Some? && c.value > v.lastSequence)
            && (v'.session.Some? ==> v'.session == v.session && v'.lastSequence == if r.Some? then c.value else v.lastSequence)
            && (v'.session.None? ==> d.at > s.expiresAt && c.None?)
  {
    AcceptsExactly(v, d.message, d.identity, d.at, signed, limits);
  }

  lemma LateIsNoCandidate(s: ControlSession, d: Delivery, signed: set<Signed>, limits: Limits)
    requires d.at > s.expiresAt
    ensures Candidate(s, d, signed, limits) == None
  {
  }

  predicate InOrder(ds: seq<Delivery>) {
    forall j, k :: 0 <= j < k < |ds| ==> ds[j].at <= ds[k].at
  }

  // Once the session has expired and was cleared there is nothing to accept, and no candidate.
  lemma {:induction false} NothingAfterExpiry(v: Verifier, s: ControlSession, ds: seq<Delivery>, signed: set<Signed>, limits: Limits, last: int)
    requires v.session == None && forall k :: 0 <= k < |ds| ==> ds[k].at > s.expiresAt
    ensures Accepted(v, ds, signed, limits) == Maxima(Candidates(s, ds, signed, limits), last)
    decreases |ds|
  {
    if ds != [] {
      LateIsNoCandidate(s, ds[0], signed, limits);
      NothingAfterExpiry(v, s, ds[1..], signed, limits, last);
      assert Candidates(s, ds, signed, limits)[1..] == Candidates(s, ds[1..], signed, limits);
    }
  }

  lemma {:induction false} AcceptedAreMaxima(v: Verifier, s: ControlSession, ds: seq<Delivery>, signed: set<Signed>, limits: Limits)
    requires v.session == Some(s) && InOrder(ds)
    ensures Accepted(v, ds, signed, limits) == Maxima(Candidates(s, ds, signed, limits), v.lastSequence)
    decreases |ds|
  {
    if ds != [] {
      var v' := VerifyPacket(v, ds[0].message, ds[0].identity, ds[0].at, signed, limits).0;
      OneDelivery(v, s, ds[0], signed, limits);
      assert Candidates(s, ds, signed, limits)[1..] == Candidates(s, ds[1..], signed, limits);
      if v'.session.Some? {
        AcceptedAreMaxima(v', s, ds[1..], signed, limits);
      } else {
        NothingAfterExpiry(v', s, ds[1..], signed, limits, v.lastSequence);
      }
    }
  }

  // Under loss, duplication and reordering, the accepted packets are exactly the strict running
  // maxima, above the counter's start, of the eligible ones.
  lemma AcceptsRunningMaxima(v: Verifier, s: ControlSession, ds: seq<Delivery>, signed: set<Signed>, limits: Limits, i: nat)
    requires v.session == Some(s) && InOrder(ds) && i < |ds|
    ensures Accepted(v, ds, signed, limits)[i] <==> Tops(Candidates(s, ds, signed, limits), v.lastSequence, i)
  {
    AcceptedAreMaxima(v, s, ds, signed, limits);
    MaximaTop(Candidates(s, ds, signed, limits), v.lastSequence, i);
  }

  // ---------- the verifier object ----------

  class SessionCommandVerifier {
    const limits: Limits
    var session: Option<ControlSession>
    var verifyKey: Option<string>
    var lastSequence: int
    var lastValidCmdTime: int

    // A key is loaded exactly when its session is.
    ghost predicate Valid()
      reads this
    {
      verifyKey == if session.Some? then Some(session.value.publicKey) else None
    }

    ghost function State(): Verifier
      reads this
    {
      Verifier(session, lastSequence, lastValidCmdTime)
    }

    constructor (limits: Limits, now: int)
      ensures Valid() && this.limits == limits && State() == Verifier(None, 0, now)
    {
      this.limits := limits;
      session, verifyKey, lastSequence, lastValidCmdTime := None, None, 0, now;
    }

    method ClearSession()
      modifies this
      ensures Valid() && State() == Clear(old(State()))
    {
      session := None;
      verifyKey := None;
      lastSequence := 0;
    }

    // refresh_session, with the messages that arrive while it waits for the gateway.
    method RefreshSession(waiting: seq<Delivery>, signed: set<Signed>, r: Response)
      requires Valid()
      modifies this
      ensures Valid()
      ensures State() == Finish(Clear(old(State())),
                                if old(session).Some? then Some(old(session).value.sessionId) else None,
                                old(lastSequence), r, limits.vehicleId)
    {
      var previousId := if session.Some? then Some(session.value.sessionId) else None;
      var previousSequence := lastSequence;
      ClearSession();
      for i := 0 to |waiting|
        invariant Valid() && State() == Clear(old(State()))
      {
        var ignored := Verify(waiting[i].message, waiting[i].identity, waiting[i].at, signed);
      }
      if !r.Reply? {
        return;
      }
      if r.session.vehicleId != limits.vehicleId || r.session.status != SessionStatus.Active || !r.keyDecodes {
        return;
      }
      session := Some(r.session);
      verifyKey := Some(r.session.publicKey);
      if Some(r.session.sessionId) == previousId {
        lastSequence := previousSequence;
      }
    }

    method Verify(m: Message, identity: string, now: int, signed: set<Signed>) returns (accepted: Option<Packet>)
      requires Valid()
      modifies this
      ensures Valid() && (State(), accepted) == VerifyPacket(old(State()), m, identity, now, signed, limits)
    {
      if session.None? || verifyKey.None? || m.Garbage? {
        return None;
      }
      var p := m.packet;
      if p.version != PROTOCOL_VERSION || p.kind != CONTROL_TYPE {
        return None;
      }
      if p.sessionId != session.value.sessionId || identity != "operator-" + session.value.operatorId {
        return None;
      }
      if now > session.value.expiresAt {
        ClearSession();
        return None;
      }
      if now - p.timestamp > limits.maxAge || p.timestamp - now > limits.maxSkew {
        return None;
      }
      if p.sequence <= lastSequence || !ValidCommand(p.command) {
        return None;
      }
      if Signed(verifyKey.value, BuildSignMessage(p), p.signature) !in signed {
        return None;
      }
      lastSequence := p.sequence;
      lastValidCmdTime := now;
      accepted := Some(p);
    }
  }
}
