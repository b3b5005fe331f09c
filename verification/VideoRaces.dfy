// Video requests whose round trips and clock readings interleave with those of other gateways.
module VideoRaces {
  import opened Types
  import opened Keyspace
  import opened RedisServer
  import opened VideoRecords

  // A gateway request between two of its steps. `sid` is the viewer index a release drops.
  datatype Racer =
    | Finding(sid: string)
    | Reading(v: string, op: Op, sid: string)
    | Judging(v: string, found: Option<VideoSession>, op: Op, sid: string)
    | Resting(v: string, session: VideoSession, op: Op, sid: string)  // an overdue deadline is saved as STANDBY
    | Dropping(v: string, session: VideoSession, op: Op, sid: string)
    | Editing(v: string, session: VideoSession, op: Op)
    | Saving(v: string, session: VideoSession, op: Op)
    | Indexing(v: string, session: VideoSession)
    | Answered(r: Option<VideoSession>)

  // The request once Get has returned.
  function Ready(v: string, session: VideoSession, op: Op, sid: string): Racer {
    match op
    case Look => Answered(Some(session))
    case Leave => Dropping(v, session, op, sid)
    case _ => Editing(v, session, op)
  }

  // One round trip or one clock reading of a request.
  function RacerStep(r: Racer, st: Store, grace: nat, now: int): (Racer, Store) {
    match r
    case Finding(sid) =>
      (match Lookup(st.viewer, sid, now)
       case None => Answered(None)
       case Some(v) => Reading(v, Leave, sid), st)
    case Reading(v, op, sid) => (Judging(v, Lookup(st.video, v, now), op, sid), st)
    case Judging(v, found, op, sid) =>
      (match found
       case None => Ready(v, Blank(v, now), op, sid)
       case Some(s) => if Lapsed(s, now) then Resting(v, Rest(s), op, sid) else Ready(v, s, op, sid), st)
    case Resting(v, s, op, sid) => (Ready(v, s, op, sid), Save(st, s, now))
    case Dropping(v, s, op, sid) => (Editing(v, s, op), st.(viewer := st.viewer - {sid}))
    case Editing(v, s, op) => (Saving(v, Edit(s, op, grace, now), op), st)
    case Saving(v, s, op) => (if op.Join? then Indexing(v, s) else Answered(Some(s)), Save(st, s, now))
    case Indexing(v, s) => (Answered(Some(s)), st.(viewer := st.viewer[s.sessionId := Entry(v, now + grace + HOUR)]))
    case Answered(_) => (r, st)
  }

  function StepsLeft(r: Racer): nat {
    match r
    case Finding(_) => 8
    case Reading(_, _, _) => 7
    case Judging(_, _, _, _) => 6
    case Resting(_, _, _, _) => 5
    case Dropping(_, _, _, _) => 4
    case Editing(_, _, _) => 3
    case Saving(_, _, _) => 2
    case Indexing(_, _) => 1
    case Answered(_) => 0
  }

  function Head(gaps: seq<seq<Interference>>): seq<Interference> {
    if gaps == [] then [] else gaps[0]
  }

  function Tail(gaps: seq<seq<Interference>>): seq<seq<Interference>> {
    if gaps == [] then [] else gaps[1..]
  }

  // A request run to its answer, with the rest of the system moving before each of its steps.
  function Resume(r: Racer, st: Store, now: int, gaps: seq<seq<Interference>>, grace: nat, ttl: int)
    : (Store, int, Option<VideoSession>)
    decreases StepsLeft(r)
  {
    if r.Answered? then (st, now, r.r)
    else
      var (st1, now1) := After(st, now, Head(gaps), ttl);
      var (r', st2) := RacerStep(r, st1, grace, now1);
      Resume(r', st2, now1, Tail(gaps), grace, ttl)
  }

  // What a step of one request is to every other: nothing, one SET or one DEL.
  function Effect(r: Racer, grace: nat, now: int): seq<Interference> {
    match r
    case Resting(_, s, _, _) => [Write(VIDEO, s.vehicleId, VideoJson(WithExpiry(s, now)), DAY)]
    case Saving(_, s, _) => [Write(VIDEO, s.vehicleId, VideoJson(WithExpiry(s, now)), DAY)]
    case Dropping(_, _, _, sid) => [Erase(VIEWER, sid)]
    case Indexing(v, s) => [Write(VIEWER, s.sessionId, Text(v), grace + HOUR)]
    case _ => []
  }

  lemma StepIsInterference(r: Racer, st: Store, grace: nat, now: int, ttl: int)
    ensures After(st, now, Effect(r, grace, now), ttl) == (RacerStep(r, st, grace, now).1, now)
  {
    var e := Effect(r, grace, now);
    assert IsPrefix(VIDEO) && IsPrefix(VIEWER) && VIEWER[6] != VIDEO[6] && LEASE[0] != VIDEO[0] && INDEX[0] != VIDEO[0];
    if e != [] { assert e[1..] == []; }
  }

  // ---------- without interference ----------

  lemma ReadWithoutGaps(v: string, op: Op, sid: string, st: Store, now: int, grace: nat, ttl: int)
    ensures var (st', s) := Get(st, v, now);
            Resume(Reading(v, op, sid), st, now, [], grace, ttl) == Resume(Ready(v, s, op, sid), st', now, [], grace, ttl)
  {
    var judging := RacerStep(Reading(v, op, sid), st, grace, now).0;
    assert Resume(Reading(v, op, sid), st, now, [], grace, ttl) == Resume(judging, st, now, [], grace, ttl);
    var next := RacerStep(judging, st, grace, now).0;
    assert Resume(judging, st, now, [], grace, ttl) == Resume(next, st, now, [], grace, ttl);
  }

  lemma EditWithoutGaps(v: string, s: VideoSession, op: Op, st: Store, now: int, grace: nat, ttl: int)
    ensures var s' := Edit(s, op, grace, now);
            var st' := Save(st, s', now);
            Resume(Editing(v, s, op), st, now, [], grace, ttl) ==
              (if op.Join? then st'.(viewer := st'.viewer[s'.sessionId := Entry(v, now + grace + HOUR)]) else st', now, Some(s'))
  {
    var s' := Edit(s, op, grace, now);
    assert Resume(Editing(v, s, op), st, now, [], grace, ttl) == Resume(Saving(v, s', op), st, now, [], grace, ttl);
    var next := RacerStep(Saving(v, s', op), st, grace, now).0;
    assert Resume(Saving(v, s', op), st, now, [], grace, ttl) == Resume(next, Save(st, s', now), now, [], grace, ttl);
    if next.Indexing? {
      var st1, st2 := Save(st, s', now), RacerStep(next, Save(st, s', now), grace, now).1;
      assert Resume(next, st1, now, [], grace, ttl) == Resume(Answered(Some(s')), st2, now, [], grace, ttl);
    }
  }

  // With nothing in its gaps a request is one operation on the record, with its index.
  lemma WithoutGapsIsAtomic(v: string, op: Op, st: Store, now: int, grace: nat, ttl: int)
    requires !op.Leave?
    ensures var (st', r) := Do(st, v, op, grace, now);
            Resume(Reading(v, op, ""), st, now, [], grace, ttl) ==
              (if op.Join? then AcquireViewer(st, v, op.uuid, grace, now).0 else st', now, Some(r))
  {
    ReadWithoutGaps(v, op, "", st, now, grace, ttl);
    var (st1, s) := Get(st, v, now);
    if !op.Look? { EditWithoutGaps(v, s, op, st1, now, grace, ttl); }
  }

  lemma ReleaseWithoutGapsIsAtomic(sid: string, st: Store, now: int, grace: nat, ttl: int)
    ensures var (st', r) := ReleaseViewer(st, sid, grace, now);
            Resume(Finding(sid), st, now, [], grace, ttl) == (st', now, r)
  {
    var next := RacerStep(Finding(sid), st, grace, now).0;
    assert Resume(Finding(sid), st, now, [], grace, ttl) == Resume(next, st, now, [], grace, ttl);
    if next.Reading? {
      var v := next.v;
      ReadWithoutGaps(v, Leave, sid, st, now, grace, ttl);
      var (st1, s) := Get(st, v, now);
      var st2 := st1.(viewer := st1.viewer - {sid});
      assert Resume(Dropping(v, s, Leave, sid), st1, now, [], grace, ttl) == Resume(Editing(v, s, Leave), st2, now, [], grace, ttl);
      EditWithoutGaps(v, s, Leave, st2, now, grace, ttl);
    }
  }

  // ---------- races ----------

  datatype Race = Race(now: int, st: Store, racers: map<nat, Racer>)

  datatype Move = Tick(d: nat) | Begin(c: nat, r: Racer) | Advance(c: nat)

  // Control session ids are never empty.
  predicate Starts(r: Racer) {
    r.Finding? || (r.Reading? && !r.op.Leave? && Proper(r.op))
  }

  // An action that is not enabled leaves the state as it is.
  function Apply(w: Race, m: Move, grace: nat): Race {
    match m
    case Tick(d) => w.(now := w.now + d)
    case Begin(c, r) =>
      if (c in w.racers ==> w.racers[c].Answered?) && Starts(r) then w.(racers := w.racers[c := r]) else w
    case Advance(c) =>
      if c !in w.racers then w
      else
        var (r, st) := RacerStep(w.racers[c], w.st, grace, w.now);
        Race(w.now, st, w.racers[c := r])
  }

  function Run(w: Race, moves: seq<Move>, grace: nat): Race
    decreases |moves|
  {
    if moves == [] then w else Run(Apply(w, moves[0], grace), moves[1..], grace)
  }

  predicate RacerOk(r: Racer) {
    match r
    case Finding(_) => true
    case Reading(_, op, _) => Proper(op)
    case Judging(_, found, op, _) => Proper(op) && (found.Some? ==> Shaped(found.value))
    case Resting(_, s, op, _) => Proper(op) && Shaped(s)
    case Dropping(_, s, op, _) => Proper(op) && Shaped(s)
    case Editing(_, s, op) => Proper(op) && Shaped(s)
    case Saving(_, s, _) => Shaped(s)
    case Indexing(_, s) => Shaped(s)
    case Answered(r) => r.Some? ==> Shaped(r.value)
  }

  ghost predicate RaceOk(w: Race) {
    && w.now > 0
    && (forall v :: v in w.st.video ==> Shaped(w.st.video[v].value))
    && (forall c :: c in w.racers ==> RacerOk(w.racers[c]))
  }

  lemma RacerKeepsShapes(r: Racer, st: Store, grace: nat, now: int)
    requires RacerOk(r) && now > 0 && forall v :: v in st.video ==> Shaped(st.video[v].value)
    ensures var (r', st') := RacerStep(r, st, grace, now);
            RacerOk(r') && forall v :: v in st'.video ==> Shaped(st'.video[v].value)
  {
    if r.Editing? { EditKeepsShape(r.session, r.op, grace, now); }
    if r.Reading? && r.v in st.video { assert Shaped(st.video[r.v].value); }
  }

  // Updates may be lost, but every record ever stored or answered is Standby, Held or Grace, and no
  // viewer count is ever negative.
  lemma {:induction false} ShapesSurviveLostUpdates(w: Race, moves: seq<Move>, grace: nat)
    requires RaceOk(w)
    ensures RaceOk(Run(w, moves, grace))
    ensures forall v :: v in Run(w, moves, grace).st.video ==> Run(w, moves, grace).st.video[v].value.viewers >= 0
    decreases |moves|
  {
    if moves != [] {
      var m := moves[0];
      if m.Advance? && m.c in w.racers { RacerKeepsShapes(w.racers[m.c], w.st, grace, w.now); }
      ShapesSurviveLostUpdates(Apply(w, m, grace), moves[1..], grace);
    }
  }
}
