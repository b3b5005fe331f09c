// The vehicle process: refresher, packet handler and watchdog sharing one verifier, against any gateway.
module VehicleNode {
  import opened Types
  import opened ControlProtocol
  import opened VehicleVerifier

  datatype Config = Config(
    limits: Limits,
    timeout: nat,        // longest wait for a refresh answer
    interval: nat,       // pause between refreshes
    slack: nat,          // how late the refresher may wake up
    deadMan: nat,        // the watchdog's timeout
    checkGap: nat,       // longest time between two watchdog checks
    behind: int,         // how far its clock is behind the gateway's; negative if it is ahead
    keyOf: string -> string)  // the key bound to a session when it was created

  datatype Phase =
    | Waiting(began: int, previousId: Option<string>, previousSequence: int)
    | Sleeping(wake: int)

  datatype Accept = Accept(packet: Packet, session: ControlSession, at: int, applied: Actuation)

  datatype Node = Node(
    now: int,
    v: Verifier,
    phase: Phase,
    lastCheck: int,
    emergency: bool,
    books: map<string, seq<Packet>>,  // what the owner of each key signed, in order
    log: seq<Accept>,                 // what this vehicle accepted, in order
    wiped: bool)                      // an expired session was cleared since the last refresh ended

  datatype Action =
    | Tick(d: nat)
    | Send(key: string, p: Packet)
    | BeginRefresh
    | EndRefresh(r: Response)
    | Deliver(m: Message, identity: string)
    | Check

  function Start(now: int): Node {
    Node(now, Verifier(None, 0, now), Sleeping(now), now, false, map[], [], false)
  }

  function Book(n: Node, key: string): seq<Packet> {
    if key in n.books then n.books[key] else []
  }

  function SignedBy(books: map<string, seq<Packet>>): set<Signed> {
    set k, i | k in books && 0 <= i < |books[k]| && !books[k][i].command.Other? ::
      Signed(k, BuildSignMessage(books[k][i]), books[k][i].signature)
  }

  // A sender's counter rises with every command and its clock does not run backwards.
  predicate Follows(book: seq<Packet>, p: Packet) {
    && Signable(p) && p.sequence >= 1
    && (book != [] ==> p.sequence > book[|book| - 1].sequence && p.timestamp >= book[|book| - 1].timestamp)
  }

  // Timeouts and wake-ups are not postponed beyond the configured slack.
  predicate InTime(n: Node, t: int, c: Config) {
    && t <= n.lastCheck + c.checkGap
    && match n.phase
       case Waiting(began, _, _) => t <= began + c.timeout
       case Sleeping(wake) => t <= wake + c.slack
  }

  function SessionId(v: Verifier): Option<string> {
    if v.session.Some? then Some(v.session.value.sessionId) else None
  }

  function EntryFor(n: Node, p: Packet): Accept
    requires n.v.session.Some? && ValidCommand(p.command)
  {
    Accept(p, n.v.session.value, n.now, ResolveCommand(p.command))
  }

  // An action that is not enabled leaves the state as it is.
  function Apply(n: Node, a: Action, c: Config): Node {
    match a
    case Tick(d) => if InTime(n, n.now + d, c) then n.(now := n.now + d) else n
    case Send(key, p) =>
      if Follows(Book(n, key), p) then n.(books := n.books[key := Book(n, key) + [p]]) else n
    case BeginRefresh =>
      if n.phase.Sleeping? && n.phase.wake <= n.now then
        n.(v := Clear(n.v), phase := Waiting(n.now, SessionId(n.v), n.v.lastSequence))
      else n
    case EndRefresh(r) =>
      if n.phase.Waiting? && (r.Reply? ==> r.session.publicKey == c.keyOf(r.session.sessionId)) then
        n.(v := Finish(n.v, n.phase.previousId, n.phase.previousSequence, r, c.limits.vehicleId),
           phase := Sleeping(n.now + c.interval), wiped := false)
      else n
    case Deliver(m, identity) =>
      var (v', r) := VerifyPacket(n.v, m, identity, n.now, SignedBy(n.books), c.limits);
      if r.Some? && n.v.session.Some? then
        n.(v := v', emergency := false, log := n.log + [EntryFor(n, r.value)])
      else n.(v := v', wiped := n.wiped || (n.v.session.Some? && v'.session.None?))
    case Check =>
      n.(lastCheck := n.now, emergency := n.emergency || n.now - n.v.lastValid > c.deadMan)
  }

  function Run(n: Node, acts: seq<Action>, c: Config): Node
    decreases |acts|
  {
    if acts == [] then n else Run(Apply(n, acts[0], c), acts[1..], c)
  }

  // ---------- what was accepted was sent ----------

  ghost predicate BookOk(book: seq<Packet>) {
    && (forall i :: 0 <= i < |book| ==> Signable(book[i]) && book[i].sequence >= 1)
    && Rising(book)
  }

  predicate Rising(book: seq<Packet>) {
    forall i, j :: 0 <= i < j < |book| ==> book[i].sequence < book[j].sequence && book[i].timestamp <= book[j].timestamp
  }

  lemma StaysRising(book: seq<Packet>, p: Packet)
    requires Rising(book)
    requires book != [] ==> book[|book| - 1].sequence < p.sequence && book[|book| - 1].timestamp <= p.timestamp
    ensures Rising(book + [p])
  {
  }

  ghost predicate Sent(n: Node, key: string, p: Packet) {
    exists i :: 0 <= i < |Book(n, key)| && SameContent(Book(n, key)[i], p) && Book(n, key)[i].signature == p.signature
  }

  ghost predicate EntryOk(n: Node, e: Accept, c: Config) {
    && e.packet.sessionId == e.session.sessionId
    && e.session.publicKey == c.keyOf(e.session.sessionId)
    && Signable(e.packet) && ValidCommand(e.packet.command) && e.applied == ResolveCommand(e.packet.command)
    && Sent(n, e.session.publicKey, e.packet)
    && e.packet.timestamp <= e.at + c.limits.maxSkew
    && e.at <= n.now
  }

  ghost predicate LogOk(n: Node, c: Config) {
    && (forall k :: k in n.books ==> BookOk(n.books[k]))
    && (forall i :: 0 <= i < |n.log| ==> EntryOk(n, n.log[i], c))
    && (n.v.session.Some? ==> n.v.session.value.publicKey == c.keyOf(n.v.session.value.sessionId))
  }

  // Two packets sent under one key: the one with the larger number was not stamped earlier.
  lemma SentInOrder(n: Node, key: string, p: Packet, q: Packet)
    requires key in n.books ==> BookOk(n.books[key])
    requires Sent(n, key, p) && Sent(n, key, q)
    ensures p.sequence >= 1
    ensures p.sequence < q.sequence ==> p.timestamp <= q.timestamp
    ensures p.sequence == q.sequence ==> p == q
  {
    var i :| 0 <= i < |Book(n, key)| && SameContent(Book(n, key)[i], p) && Book(n, key)[i].signature == p.signature;
    var j :| 0 <= j < |Book(n, key)| && SameContent(Book(n, key)[j], q) && Book(n, key)[j].signature == q.signature;
    var b := Book(n, key);
    assert b[i].sequence == p.sequence && b[j].sequence == q.sequence;
    assert b[i].timestamp == p.timestamp && b[j].timestamp == q.timestamp;
  }

  // A text in the signature set of a key can only be that of the very packet its owner sent.
  lemma SignedMeansSent(n: Node, key: string, p: Packet)
    requires key in n.books ==> BookOk(n.books[key])
    requires Signable(p) && Signed(key, BuildSignMessage(p), p.signature) in SignedBy(n.books)
    ensures Sent(n, key, p)
  {
    var i :| key in n.books && 0 <= i < |n.books[key]| && !n.books[key][i].command.Other?
             && Signed(key, BuildSignMessage(p), p.signature)
                == Signed(key, BuildSignMessage(n.books[key][i]), n.books[key][i].signature);
    SignedTextIsInjective(n.books[key][i], p);
    assert SameContent(Book(n, key)[i], p);
  }

  lemma SentStaysSent(n: Node, a: Action, c: Config, key: string, p: Packet)
    requires Sent(n, key, p)
    ensures Sent(Apply(n, a, c), key, p)
  {
    var i :| 0 <= i < |Book(n, key)| && SameContent(Book(n, key)[i], p) && Book(n, key)[i].signature == p.signature;
    assert Book(Apply(n, a, c), key)[i] == Book(n, key)[i];
  }

  lemma SendKeepsBook(book: seq<Packet>, p: Packet)
    requires BookOk(book) && Follows(book, p)
    ensures BookOk(book + [p])
  {
    StaysRising(book, p);
    forall i | 0 <= i < |book + [p]| ensures Signable((book + [p])[i]) && (book + [p])[i].sequence >= 1 {
      assert (book + [p])[i] == if i < |book| then book[i] else p;
    }
  }

  lemma TimeGrows(n: Node, a: Action, c: Config)
    ensures n.now <= Apply(n, a, c).now
  {
  }

  lemma OldEntriesStayOk(n: Node, a: Action, c: Config, e: Accept)
    requires EntryOk(n, e, c)
    ensures EntryOk(Apply(n, a, c), e, c)
  {
    SentStaysSent(n, a, c, e.session.publicKey, e.packet);
    TimeGrows(n, a, c);
    OlderEntryIsOk(n, Apply(n, a, c), c, e);
  }

  lemma OlderEntryIsOk(n: Node, n': Node, c: Config, e: Accept)
    requires EntryOk(n, e, c) && n.now <= n'.now && Sent(n', e.session.publicKey, e.packet)
    ensures EntryOk(n', e, c)
  {
  }

  // A delivery adds at most one entry, and that entry is in order.
  lemma DeliverLogs(n: Node, m: Message, identity: string, c: Config)
    requires LogOk(n, c)
    ensures var n' := Apply(n, Deliver(m, identity), c);
            n'.log == n.log ||
            (&& n.v.session.Some? && n'.v.session == n.v.session && n'.books == n.books
             && m.Json? && ValidCommand(m.packet.command)
             && n'.v.lastSequence == m.packet.sequence > n.v.lastSequence && n'.v.lastValid == n.now
             && n.now - m.packet.timestamp <= c.limits.maxAge && n.now <= n.v.session.value.expiresAt
             && n'.log == n.log + [EntryFor(n, m.packet)] && EntryOk(n', EntryFor(n, m.packet), c))
  {
    var n' := Apply(n, Deliver(m, identity), c);
    AcceptsExactly(n.v, m, identity, n.now, SignedBy(n.books), c.limits);
    if n'.log != n.log {
      SignedMeansSent(n, n.v.session.value.publicKey, m.packet);
      SentStaysSent(n, Deliver(m, identity), c, n.v.session.value.publicKey, m.packet);
    }
  }

  lemma StepKeepsLog(n: Node, a: Action, c: Config)
    requires LogOk(n, c)
    ensures LogOk(Apply(n, a, c), c)
  {
    var n' := Apply(n, a, c);
    forall e | e in n.log ensures EntryOk(n', e, c) {
      OldEntriesStayOk(n, a, c, e);
    }
    match a
    case Send(key, p) => if Follows(Book(n, key), p) { SendKeepsBook(Book(n, key), p); }
    case Deliver(m, identity) => DeliverLogs(n, m, identity, c);
    case _ =>
  }

  lemma {:induction false} RunKeepsLog(n: Node, acts: seq<Action>, c: Config)
    requires LogOk(n, c)
    ensures LogOk(Run(n, acts, c), c)
    decreases |acts|
  {
    if acts != [] {
      StepKeepsLog(n, acts[0], c);
      RunKeepsLog(Apply(n, acts[0], c), acts[1..], c);
    }
  }

  // Every actuation the vehicle ever applied is that of a packet the session's key owner signed,
  // with that packet's own sequence and timestamp, and all its values are in range.
  lemma ActuationsAreAuthentic(start: int, acts: seq<Action>, c: Config, k: nat)
    requires k < |Run(Start(start), acts, c).log|
    ensures var n := Run(Start(start), acts, c);
            var e := n.log[k];
            exists i :: 0 <= i < |Book(n, c.keyOf(e.packet.sessionId))|
              && var sent := Book(n, c.keyOf(e.packet.sessionId))[i];
              && ValidCommand(sent.command) && e.applied == ResolveCommand(sent.command)
              && sent.sequence == e.packet.sequence && sent.timestamp == e.packet.timestamp
              && sent.sessionId == e.session.sessionId
    ensures var a := Run(Start(start), acts, c).log[k].applied;
            -1.0 <= a.steering <= 1.0 && 0.0 <= a.throttle <= 1.0 && 0.0 <= a.brake <= 1.0
            && (a.direction == -1.0 || a.direction == 0.0 || a.direction == 1.0)
  {
    RunKeepsLog(Start(start), acts, c);
    var n := Run(Start(start), acts, c);
    var e := n.log[k];
    assert EntryOk(n, e, c);
    var i :| 0 <= i < |Book(n, e.session.publicKey)| && SameContent(Book(n, e.session.publicKey)[i], e.packet);
    assert Book(n, c.keyOf(e.packet.sessionId))[i].command == e.packet.command;
  }

  // ---------- what was accepted was authorized ----------

  predicate OwnSession(s: ControlSession, c: Config) {
    s.vehicleId == c.limits.vehicleId && s.status == SessionStatus.Active
  }

  predicate Authorized(e: Accept, c: Config) {
    && OwnSession(e.session, c) && e.packet.sessionId == e.session.sessionId && e.at <= e.session.expiresAt
    && -(c.limits.maxSkew as int) <= e.at - e.packet.timestamp <= c.limits.maxAge
  }

  ghost predicate AllAuthorized(n: Node, c: Config) {
    && (n.v.session.Some? ==> OwnSession(n.v.session.value, c))
    && (forall i :: 0 <= i < |n.log| ==> Authorized(n.log[i], c))
  }

  lemma StepKeepsAuthorized(n: Node, a: Action, c: Config)
    requires AllAuthorized(n, c)
    ensures AllAuthorized(Apply(n, a, c), c)
  {
    if a.Deliver? {
      AcceptsExactly(n.v, a.m, a.identity, n.now, SignedBy(n.books), c.limits);
      AcceptedIff(n.v, a.m, a.identity, n.now, SignedBy(n.books), c.limits);
    }
  }

  lemma {:induction false} RunKeepsAuthorized(n: Node, acts: seq<Action>, c: Config)
    requires AllAuthorized(n, c)
    ensures AllAuthorized(Run(n, acts, c), c)
    decreases |acts|
  {
    if acts != [] {
      StepKeepsAuthorized(n, acts[0], c);
      RunKeepsAuthorized(Apply(n, acts[0], c), acts[1..], c);
    }
  }

  // Whatever a gateway answers: in every run each command was accepted under an ACTIVE, unexpired session
  // of this very vehicle, and within the freshness window on either side of its timestamp.
  lemma AcceptedUnderOwnSession(start: int, acts: seq<Action>, c: Config, i: nat)
    requires i < |Run(Start(start), acts, c).log|
    ensures var e := Run(Start(start), acts, c).log[i];
            && e.session.vehicleId == c.limits.vehicleId && e.session.status == SessionStatus.Active
            && e.packet.sessionId == e.session.sessionId && e.at <= e.session.expiresAt
            && e.packet.timestamp - c.limits.maxSkew <= e.at <= e.packet.timestamp + c.limits.maxAge
  {
    RunKeepsAuthorized(Start(start), acts, c);
  }
}
