// Which id a video session has, and whom a viewer's release reaches, over whole runs with fresh ids.
module VideoIdentity {
  import opened Types
  import opened VideoRecords
  import opened ViewerCount
  import R = VideoRaces

  // ---------- one operation ----------

  predicate Names(op: Op) {
    op.Join? || op.Take?
  }

  function IdIn(op: Op): string
    requires Names(op)
  {
    match op
    case Join(uuid) => uuid
    case Take(_, uuid) => uuid
  }

  // A live record keeps its identity; one without an id is named by the join or the controller change that
  // gives it one, and created then. A new record is not named by anything else.
  lemma IdentityIsKept(st: Store, v: string, op: Op, grace: nat, now: int)
    requires now > 0 && Proper(op) && Filed(st, v)
    ensures var (st', r) := Do(st, v, op, grace, now);
            && r.vehicleId == v
            && (match Lookup(st.video, v, now)
                case None =>
                  && r.createdAt == r.expiresAt == now
                  && r.sessionId == if Names(op) then IdIn(op) else ""
                case Some(s) =>
                  && r.expiresAt == s.expiresAt
                  && (if s.sessionId == "" && Names(op) then r.sessionId == IdIn(op) && r.createdAt == now
                      else r.sessionId == s.sessionId && r.createdAt == s.createdAt))
            && (v in st'.video && (op.Look? ==> st' != st) ==>
                  st'.video[v] == Entry(if r.expiresAt == 0 then r.(expiresAt := now + 86400000) else r, now + 86400000))
  {
  }

  // ---------- fresh ids ----------

  predicate Gives(m: Move) {
    m.Acquire? || (m.Other? && m.op.Take?)
  }

  function Given(m: Move): string
    requires Gives(m)
  {
    if m.Acquire? then m.uuid else m.op.uuid
  }

  function Owner(owner: map<string, string>, m: Move): map<string, string> {
    if Gives(m) then owner[Given(m) := m.v] else owner
  }

  // No id is generated twice.
  predicate Fresh(owner: map<string, string>, moves: seq<Move>) {
    && (forall i :: 0 <= i < |moves| && Gives(moves[i]) ==> Given(moves[i]) !in owner)
    && (forall i, j :: 0 <= i < j < |moves| && Gives(moves[i]) && Gives(moves[j]) ==> Given(moves[i]) != Given(moves[j]))
  }

  // The id of a record was generated for its vehicle.
  ghost predicate IdOwned(st: Store, owner: map<string, string>, v: string) {
    v in st.video && st.video[v].value.sessionId != "" ==>
      st.video[v].value.sessionId in owner && owner[st.video[v].value.sessionId] == v
  }

  ghost predicate IdsOwned(st: Store, owner: map<string, string>) {
    forall v :: IdOwned(st, owner, v)
  }

  // The id of the record after an operation was there before, or is the operation's own.
  lemma DoIds(st: Store, v: string, op: Op, grace: nat, now: int)
    requires now > 0 && Proper(op) && Filed(st, v)
    ensures var (st', r) := Do(st, v, op, grace, now);
            && (v in st'.video ==> r.sessionId == st'.video[v].value.sessionId || (op.Look? && st' == st))
            && (v in st'.video && st'.video[v].value.sessionId != "" ==>
                  || (Names(op) && st'.video[v].value.sessionId == IdIn(op))
                  || (v in st.video && st'.video[v].value.sessionId == st.video[v].value.sessionId))
  {
  }

  lemma DoKeepsOwned(st: Store, v: string, op: Op, grace: nat, now: int, owner: map<string, string>, u: string)
    requires now > 0 && Proper(op) && Filed(st, v) && IdOwned(st, owner, u) && (Names(op) ==> IdIn(op) !in owner)
    ensures IdOwned(Do(st, v, op, grace, now).0, if Names(op) then owner[IdIn(op) := v] else owner, u)
  {
    DoFrames(st, v, op, grace, now);
    DoIds(st, v, op, grace, now);
  }

  // The operation a move does on a record, and on which.
  lemma MoveKeepsOwned(g: Gallery, m: Move, grace: nat, owner: map<string, string>, u: string)
    requires Exact(g) && IdOwned(g.st, owner, u) && (Gives(m) ==> Given(m) !in owner)
    ensures IdOwned(Apply(g, m, grace).st, Owner(owner, m), u)
  {
    match m
    case Tick(_) =>
    case Acquire(v, uuid) =>
      assert v in g.st.video ==> RecordExact(g, v);
      DoKeepsOwned(g.st, v, Join(uuid), grace, g.now, owner, u);
    case Release(sid) =>
      if Lookup(g.st.viewer, sid, g.now).Some? {
        var v := g.st.viewer[sid].value;
        assert v in g.st.video ==> RecordExact(g, v);
        DoKeepsOwned(g.st, v, Leave, grace, g.now, owner, u);
      }
    case Other(v, op) =>
      assert v in g.st.video ==> RecordExact(g, v);
      if Uncounted(op) { DoKeepsOwned(g.st, v, op, grace, g.now, owner, u); }
  }

  lemma MoveKeepsIds(g: Gallery, m: Move, grace: nat, owner: map<string, string>)
    requires Exact(g) && IdsOwned(g.st, owner) && (Gives(m) ==> Given(m) !in owner)
    ensures IdsOwned(Apply(g, m, grace).st, Owner(owner, m))
  {
    forall u ensures IdOwned(Apply(g, m, grace).st, Owner(owner, m), u) {
      assert IdOwned(g.st, owner, u);
      MoveKeepsOwned(g, m, grace, owner, u);
    }
  }

  lemma FreshRest(owner: map<string, string>, moves: seq<Move>)
    requires Fresh(owner, moves) && moves != []
    ensures Fresh(Owner(owner, moves[0]), moves[1..]) && (Gives(moves[0]) ==> Given(moves[0]) !in owner)
  {
    var rest := moves[1..];
    forall i | 0 <= i < |rest| && Gives(rest[i]) ensures Given(rest[i]) !in Owner(owner, moves[0]) {
      assert rest[i] == moves[i + 1];
    }
  }

  function Owners(owner: map<string, string>, moves: seq<Move>): map<string, string>
    decreases |moves|
  {
    if moves == [] then owner else Owners(Owner(owner, moves[0]), moves[1..])
  }

  lemma {:induction false} RunKeepsIds(g: Gallery, moves: seq<Move>, grace: nat, owner: map<string, string>)
    requires Exact(g) && grace + HOUR <= DAY && IdsOwned(g.st, owner) && Fresh(owner, moves)
    ensures Exact(Run(g, moves, grace)) && IdsOwned(Run(g, moves, grace).st, Owners(owner, moves))
    decreases |moves|
  {
    if moves != [] {
      FreshRest(owner, moves);
      StepKeepsExact(g, moves[0], grace);
      MoveKeepsIds(g, moves[0], grace, owner);
      RunKeepsIds(Apply(g, moves[0], grace), moves[1..], grace, Owner(owner, moves[0]));
    }
  }

  // In every run in which no id is generated twice, no two vehicles' records share an id.
  lemma IdsAreDistinct(start: int, moves: seq<Move>, grace: nat, v: string, w: string)
    requires start > 0 && grace + HOUR <= DAY && Fresh(map[], moves) && v != w
    ensures var st := Run(Gallery(start, EMPTY_STORE, map[]), moves, grace).st;
            v in st.video && w in st.video && st.video[v].value.sessionId != "" ==>
              st.video[v].value.sessionId != st.video[w].value.sessionId
  {
    var st, owner := Run(Gallery(start, EMPTY_STORE, map[]), moves, grace).st, Owners(map[], moves);
    RunKeepsIds(Gallery(start, EMPTY_STORE, map[]), moves, grace, map[]);
    assert IdOwned(st, owner, v) && IdOwned(st, owner, w);
  }

  // ---------- joining and releasing ----------

  // A join counts one viewer on its vehicle and points the index of the answered id at it; nothing else.
  lemma JoinTouchesOnly(st: Store, v: string, uuid: string, grace: nat, now: int)
    requires now > 0 && Filed(st, v)
    ensures var (st', r) := AcquireViewer(st, v, uuid, grace, now);
            && v in st'.video && st'.video[v].value == WithExpiry(r, now)
            && r.viewers == (if Lookup(st.video, v, now).Some? then st.video[v].value.viewers else 0) + 1
            && r.sessionId in st'.viewer && st'.viewer[r.sessionId] == Entry(v, now + grace + 3600000)
            && st'.lease == st.lease && st'.index == st.index
            && (forall w :: w != v ==> (w in st'.video <==> w in st.video) && (w in st.video ==> st'.video[w] == st.video[w]))
            && (forall x :: x != r.sessionId ==>
                  (x in st'.viewer <==> x in st.viewer) && (x in st.viewer ==> st'.viewer[x] == st.viewer[x]))
  {
    DoFrames(st, v, Join(uuid), grace, now);
    DoSummary(st, v, Join(uuid), grace, now);
  }

  // A release that finds its index takes one viewer off its vehicle and drops the index; nothing else.
  lemma ReleaseTouchesOnly(g: Gallery, v: string, sid: string, grace: nat)
    requires Exact(g) && Lookup(g.st.viewer, sid, g.now) == Some(v)
    ensures var (st', r) := ReleaseViewer(g.st, sid, grace, g.now);
            && v in g.st.video && v in st'.video && r.Some? && st'.video[v].value == WithExpiry(r.value, g.now)
            && st'.video[v].value.viewers == g.st.video[v].value.viewers - 1
            && st'.viewer == g.st.viewer - {sid} && st'.lease == g.st.lease && st'.index == g.st.index
            && (forall w :: w != v ==>
                  (w in st'.video <==> w in g.st.video) && (w in g.st.video ==> st'.video[w] == g.st.video[w]))
  {
    assert IndexCounts(g, sid) && RecordExact(g, v);
    DoFrames(g.st, v, Leave, grace, g.now);
    DoSummary(g.st, v, Leave, grace, g.now);
  }

  // The index of an id as the last join on its vehicle left it, and no longer there once it was released.
  predicate Indexed(g: Gallery, sid: string, v: string, until: int, gone: bool) {
    if gone then Lookup(g.st.viewer, sid, g.now).None?
    else sid in g.st.viewer && g.st.viewer[sid] == Entry(v, until)
  }

  predicate Joins(m: Move, v: string) {
    m.Acquire? && m.v == v
  }

  lemma AnswersOther(g: Gallery, v: string, uuid: string, grace: nat, owner: map<string, string>, sid: string)
    requires Exact(g) && IdsOwned(g.st, owner) && uuid !in owner && uuid != "" && sid in owner && owner[sid] != v
    ensures AcquireViewer(g.st, v, uuid, grace, g.now).1.sessionId != sid
  {
    assert v in g.st.video ==> RecordExact(g, v);
    assert IdOwned(g.st, owner, v);
    DoIds(g.st, v, Join(uuid), grace, g.now);
    DoSummary(g.st, v, Join(uuid), grace, g.now);
    NamedHasId(g.st, v, Join(uuid), grace, g.now);
  }

  lemma MoveKeepsIndexed(g: Gallery, m: Move, grace: nat, owner: map<string, string>, sid: string, v: string, until: int, gone: bool)
    requires Exact(g) && IdsOwned(g.st, owner) && (Gives(m) ==> Given(m) !in owner)
    requires sid in owner && owner[sid] == v && !Joins(m, v) && Indexed(g, sid, v, until, gone)
    ensures Indexed(Apply(g, m, grace), sid, v, until,
                    gone || (m == Release(sid) && Lookup(g.st.viewer, sid, g.now).Some?))
  {
    match m
    case Tick(_) =>
    case Acquire(u, uuid) =>
      if uuid != "" {
        assert u in g.st.video ==> RecordExact(g, u);
        AnswersOther(g, u, uuid, grace, owner, sid);
        JoinTouchesOnly(g.st, u, uuid, grace, g.now);
      }
    case Release(s) =>
      if Lookup(g.st.viewer, s, g.now).Some? { ReleaseTouchesOnly(g, g.st.viewer[s].value, s, grace); }
    case Other(u, op) =>
      assert u in g.st.video ==> RecordExact(g, u);
      if Uncounted(op) { DoFrames(g.st, u, op, grace, g.now); }
  }

  // After the last join on a vehicle, a release of its id finds it exactly until the first one, and until
  // the grace period and an hour have passed since that join.
  lemma {:induction false} RunKeepsIndexed(g: Gallery, moves: seq<Move>, grace: nat, owner: map<string, string>, sid: string, v: string,
                                           until: int, gone: bool)
    requires Exact(g) && grace + HOUR <= DAY && IdsOwned(g.st, owner) && Fresh(owner, moves)
    requires sid in owner && owner[sid] == v && Indexed(g, sid, v, until, gone)
    requires forall i :: 0 <= i < |moves| ==> !Joins(moves[i], v)
    ensures var g' := Run(g, moves, grace);
            && Exact(g')
            && (Lookup(g'.st.viewer, sid, g'.now).Some? <==> !gone && Release(sid) !in moves && g'.now <= until)
            && (!gone && Release(sid) !in moves ==> sid in g'.st.viewer && g'.st.viewer[sid] == Entry(v, until))
    decreases |moves|
  {
    if moves != [] {
      var m, rest := moves[0], moves[1..];
      FreshRest(owner, moves);
      StepKeepsExact(g, m, grace);
      MoveKeepsIds(g, m, grace, owner);
      var g1 := Apply(g, m, grace);
      MoveKeepsIndexed(g, m, grace, owner, sid, v, until, gone);
      assert moves == [m] + rest;
      RunKeepsIndexed(g1, rest, grace, Owner(owner, m), sid, v, until, gone || m == Release(sid));
    }
  }

  lemma {:induction false} FreshSplit(owner: map<string, string>, a: seq<Move>, b: seq<Move>)
    requires Fresh(owner, a + b)
    ensures Fresh(owner, a) && Fresh(Owners(owner, a), b)
    decreases |a|
  {
    if a == [] {
      assert a + b == b;
    } else {
      FreshRest(owner, a + b);
      assert (a + b)[1..] == a[1..] + b;
      FreshSplit(Owner(owner, a[0]), a[1..], b);
      assert forall i :: 0 <= i < |a| ==> (a + b)[i] == a[i];
    }
  }

  // The answered id of a join is the vehicle's, and indexed until the grace period and an hour have passed.
  lemma JoinIndexes(g: Gallery, v: string, uuid: string, grace: nat, owner: map<string, string>)
    requires Exact(g) && grace + HOUR <= DAY && IdsOwned(g.st, owner) && uuid != "" && uuid !in owner
    ensures var g', sid := Apply(g, Acquire(v, uuid), grace), AcquireViewer(g.st, v, uuid, grace, g.now).1.sessionId;
            var owner' := Owner(owner, Acquire(v, uuid));
            && Exact(g') && IdsOwned(g'.st, owner') && sid in owner' && owner'[sid] == v
            && Indexed(g', sid, v, g.now + grace + HOUR, false)
  {
    var g', sid := Apply(g, Acquire(v, uuid), grace), AcquireViewer(g.st, v, uuid, grace, g.now).1.sessionId;
    assert v in g.st.video ==> RecordExact(g, v);
    StepKeepsExact(g, Acquire(v, uuid), grace);
    MoveKeepsIds(g, Acquire(v, uuid), grace, owner);
    JoinTouchesOnly(g.st, v, uuid, grace, g.now);
    NamedHasId(g.st, v, Join(uuid), grace, g.now);
    assert IdOwned(g'.st, Owner(owner, Acquire(v, uuid)), v);
  }

  // In every run in which no id is generated twice: the id that the last join on v was answered finds v,
  // and nothing but v, exactly until it is first released, by whomever, and until the grace period and an
  // hour have passed. Viewers of one vehicle share its id, so the first of them to leave is the only one
  // whose release is found.
  lemma ReleaseFindsTheVehicleJoined(start: int, past: seq<Move>, v: string, uuid: string, later: seq<Move>, grace: nat)
    requires start > 0 && grace + HOUR <= DAY && uuid != "" && Fresh(map[], past + ([Acquire(v, uuid)] + later))
    requires forall i :: 0 <= i < |later| ==> !Joins(later[i], v)
    ensures var g0 := Run(Gallery(start, EMPTY_STORE, map[]), past, grace);
            var sid := AcquireViewer(g0.st, v, uuid, grace, g0.now).1.sessionId;
            var g := Run(Apply(g0, Acquire(v, uuid), grace), later, grace);
            && Exact(g)
            && Lookup(g.st.viewer, sid, g.now) ==
                 if Release(sid) !in later && g.now <= g0.now + grace + HOUR then Some(v) else None
  {
    var join := Acquire(v, uuid);
    FreshSplit(map[], past, [join] + later);
    var owner := Owners(map[], past);
    FreshRest(owner, [join] + later);
    assert ([join] + later)[1..] == later;
    RunKeepsIds(Gallery(start, EMPTY_STORE, map[]), past, grace, map[]);
    var g0 := Run(Gallery(start, EMPTY_STORE, map[]), past, grace);
    JoinIndexes(g0, v, uuid, grace, owner);
    RunKeepsIndexed(Apply(g0, join, grace), later, grace, Owner(owner, join),
                    AcquireViewer(g0.st, v, uuid, grace, g0.now).1.sessionId, v, g0.now + grace + HOUR, false);
  }

  // ---------- the stored expiry ----------

  ghost predicate Stamped(st: Store, v: string, now: int) {
    v in st.video ==> 0 < st.video[v].value.createdAt <= now && 0 < st.video[v].value.expiresAt <= now
  }

  lemma DoKeepsStamped(st: Store, v: string, op: Op, grace: nat, now: int, u: string)
    requires now > 0 && Proper(op) && Filed(st, v) && Stamped(st, v, now) && Stamped(st, u, now)
    ensures Stamped(Do(st, v, op, grace, now).0, u, now)
  {
    DoFrames(st, v, op, grace, now);
    IdentityIsKept(st, v, op, grace, now);
  }

  lemma MoveKeepsStamped(g: Gallery, m: Move, grace: nat, u: string)
    requires Exact(g) && forall v :: Stamped(g.st, v, g.now)
    ensures Stamped(Apply(g, m, grace).st, u, Apply(g, m, grace).now)
  {
    assert Stamped(g.st, u, g.now);
    match m
    case Tick(_) =>
    case Acquire(v, uuid) =>
      assert v in g.st.video ==> RecordExact(g, v);
      DoKeepsStamped(g.st, v, Join(uuid), grace, g.now, u);
    case Release(sid) =>
      if Lookup(g.st.viewer, sid, g.now).Some? {
        var v := g.st.viewer[sid].value;
        assert v in g.st.video ==> RecordExact(g, v);
        DoKeepsStamped(g.st, v, Leave, grace, g.now, u);
      }
    case Other(v, op) =>
      assert v in g.st.video ==> RecordExact(g, v);
      if Uncounted(op) { DoKeepsStamped(g.st, v, op, grace, g.now, u); }
  }

  lemma {:induction false} RunKeepsStamped(g: Gallery, moves: seq<Move>, grace: nat)
    requires Exact(g) && grace + HOUR <= DAY && forall v :: Stamped(g.st, v, g.now)
    ensures forall v :: Stamped(Run(g, moves, grace).st, v, Run(g, moves, grace).now)
    decreases |moves|
  {
    if moves != [] {
      StepKeepsExact(g, moves[0], grace);
      var g1 := Apply(g, moves[0], grace);
      forall v ensures Stamped(g1.st, v, g1.now) { MoveKeepsStamped(g, moves[0], grace, v); }
      RunKeepsStamped(g1, moves[1..], grace);
    }
  }

  // In every run: the expiry that a stored record states is never in the future, although the record is
  // kept for a day after every save. A read that finds nothing fills it with that very instant, so that no
  // save ever fills it with a later one.
  lemma StatedExpiryIsNeverAhead(start: int, moves: seq<Move>, grace: nat, v: string)
    requires start > 0 && grace + HOUR <= DAY
    ensures var g := Run(Gallery(start, EMPTY_STORE, map[]), moves, grace);
            v in g.st.video ==> 0 < g.st.video[v].value.expiresAt <= g.now
  {
    var g := Run(Gallery(start, EMPTY_STORE, map[]), moves, grace);
    RunKeepsStamped(Gallery(start, EMPTY_STORE, map[]), moves, grace);
    assert Stamped(g.st, v, g.now);
  }

  // ---------- with requests that interleave ----------

  // An id, if any, was generated for this vehicle.
  predicate Own(id: string, v: string, owner: map<string, string>) {
    id != "" ==> id in owner && owner[id] == v
  }

  predicate SessionOwn(s: VideoSession, v: string, owner: map<string, string>) {
    s.vehicleId == v && Own(s.sessionId, v, owner)
  }

  predicate OpOwn(op: Op, v: string, owner: map<string, string>) {
    Names(op) ==> Own(IdIn(op), v, owner)
  }

  predicate RacerOwn(r: R.Racer, owner: map<string, string>) {
    match r
    case Finding(_) => true
    case Reading(v, op, _) => OpOwn(op, v, owner)
    case Judging(v, found, op, _) => OpOwn(op, v, owner) && (found.Some? ==> SessionOwn(found.value, v, owner))
    case Resting(v, s, op, _) => OpOwn(op, v, owner) && SessionOwn(s, v, owner)
    case Dropping(v, s, op, _) => OpOwn(op, v, owner) && SessionOwn(s, v, owner)
    case Editing(v, s, op) => OpOwn(op, v, owner) && SessionOwn(s, v, owner)
    case Saving(v, s, _) => SessionOwn(s, v, owner)
    case Indexing(v, s) => SessionOwn(s, v, owner)
    case Answered(s) => s.Some? ==> Own(s.value.sessionId, s.value.vehicleId, owner)
  }

  ghost predicate StoreOwn(st: Store, owner: map<string, string>) {
    && (forall v :: v in st.video ==> SessionOwn(st.video[v].value, v, owner))
    && (forall sid :: sid in st.viewer ==> Own(sid, st.viewer[sid].value, owner))
  }

  ghost predicate RaceOwn(w: R.Race, owner: map<string, string>) {
    StoreOwn(w.st, owner) && forall c :: c in w.racers ==> RacerOwn(w.racers[c], owner)
  }

  lemma RacerKeepsOwn(r: R.Racer, st: Store, grace: nat, now: int, owner: map<string, string>)
    requires RacerOwn(r, owner) && StoreOwn(st, owner)
    ensures var (r', st') := R.RacerStep(r, st, grace, now); RacerOwn(r', owner) && StoreOwn(st', owner)
  {
    if r.Reading? && r.v in st.video { assert SessionOwn(st.video[r.v].value, r.v, owner); }
  }

  predicate Opens(m: R.Move) {
    m.Begin? && m.r.Reading? && Names(m.r.op)
  }

  function RaceOwner(owner: map<string, string>, m: R.Move): map<string, string> {
    if Opens(m) then owner[IdIn(m.r.op) := m.r.v] else owner
  }

  predicate FreshRace(owner: map<string, string>, moves: seq<R.Move>)
    decreases |moves|
  {
    moves == [] ||
    ((Opens(moves[0]) ==> IdIn(moves[0].r.op) !in owner) && FreshRace(RaceOwner(owner, moves[0]), moves[1..]))
  }

  function RaceOwners(owner: map<string, string>, moves: seq<R.Move>): map<string, string>
    decreases |moves|
  {
    if moves == [] then owner else RaceOwners(RaceOwner(owner, moves[0]), moves[1..])
  }

  lemma RaceStepKeepsOwn(w: R.Race, m: R.Move, grace: nat, owner: map<string, string>)
    requires RaceOwn(w, owner) && (Opens(m) ==> IdIn(m.r.op) !in owner)
    ensures RaceOwn(R.Apply(w, m, grace), RaceOwner(owner, m))
  {
    match m
    case Tick(_) =>
    case Begin(c, r) =>
      var owner' := RaceOwner(owner, m);
      assert R.Starts(r) ==> RacerOwn(r, owner');
      forall d | d in w.racers ensures RacerOwn(w.racers[d], owner') { assert RacerOwn(w.racers[d], owner); }
      assert StoreOwn(w.st, owner');
    case Advance(c) =>
      if c in w.racers { RacerKeepsOwn(w.racers[c], w.st, grace, w.now, owner); }
  }

  lemma {:induction false} RaceKeepsOwn(w: R.Race, moves: seq<R.Move>, grace: nat, owner: map<string, string>)
    requires RaceOwn(w, owner) && FreshRace(owner, moves)
    ensures RaceOwn(R.Run(w, moves, grace), RaceOwners(owner, moves))
    decreases |moves|
  {
    if moves != [] {
      RaceStepKeepsOwn(w, moves[0], grace, owner);
      RaceKeepsOwn(R.Apply(w, moves[0], grace), moves[1..], grace, RaceOwner(owner, moves[0]));
    }
  }

  // Requests may interleave and lose updates as they will: the ids of two vehicles' records still differ,
  // and the index of an id that a request was answered, wherever it is still there, points at the vehicle
  // of that answer.
  lemma RacesKeepVehiclesApart(start: int, moves: seq<R.Move>, grace: nat, v: string, u: string, c: nat)
    requires FreshRace(map[], moves)
    ensures var w := R.Run(R.Race(start, EMPTY_STORE, map[]), moves, grace);
            && (v != u && v in w.st.video && u in w.st.video && w.st.video[v].value.sessionId != "" ==>
                  w.st.video[v].value.sessionId != w.st.video[u].value.sessionId)
            && (c in w.racers && w.racers[c].Answered? && w.racers[c].r.Some? ==>
                  var s := w.racers[c].r.value;
                  s.sessionId != "" && s.sessionId in w.st.viewer ==> w.st.viewer[s.sessionId].value == s.vehicleId)
  {
    var w, owner := R.Run(R.Race(start, EMPTY_STORE, map[]), moves, grace), RaceOwners(map[], moves);
    RaceKeepsOwn(R.Race(start, EMPTY_STORE, map[]), moves, grace, map[]);
    assert v in w.st.video ==> SessionOwn(w.st.video[v].value, v, owner);
    assert u in w.st.video ==> SessionOwn(w.st.video[u].value, u, owner);
    assert c in w.racers ==> RacerOwn(w.racers[c], owner);
  }
}
