// With operations that do not interleave, the viewer count is exact.
module ViewerCount {
  import opened Types
  import opened VideoRecords

  // Joins and leaves that succeeded on a vehicle since its record last came into being.
  datatype Tally = Tally(joined: nat, left: nat)

  datatype Gallery = Gallery(now: int, st: Store, tallies: map<string, Tally>)

  datatype Move =
    | Tick(d: nat)
    | Acquire(v: string, uuid: string)
    | Release(sid: string)
    | Other(v: string, op: Op)

  predicate Alive(g: Gallery, v: string) {
    v in g.st.video && g.now <= g.st.video[v].deadline
  }

  function TallyOf(g: Gallery, v: string): Tally {
    if Alive(g, v) && v in g.tallies then g.tallies[v] else Tally(0, 0)
  }

  // An action that is not enabled leaves the state as it is.
  function Apply(g: Gallery, m: Move, grace: nat): Gallery {
    match m
    case Tick(d) => g.(now := g.now + d)
    case Acquire(v, uuid) =>
      var t := TallyOf(g, v);
      if uuid == "" then g
      else g.(st := AcquireViewer(g.st, v, uuid, grace, g.now).0, tallies := g.tallies[v := t.(joined := t.joined + 1)])
    case Release(sid) =>
      (match Lookup(g.st.viewer, sid, g.now)
       case None => g
       case Some(v) =>
         var t := TallyOf(g, v);
         g.(st := ReleaseViewer(g.st, sid, grace, g.now).0, tallies := g.tallies[v := t.(left := t.left + 1)]))
    case Other(v, op) =>
      if Uncounted(op) then
        g.(st := Do(g.st, v, op, grace, g.now).0, tallies := g.tallies[v := TallyOf(g, v)])
      else g
  }

  // Reads and controller changes, with the non-empty ids the gateway generates.
  predicate Uncounted(op: Op) {
    op.Look? || op.Quit? || (op.Take? && op.controller != "" && op.uuid != "")
  }

  function Run(g: Gallery, moves: seq<Move>, grace: nat): Gallery
    decreases |moves|
  {
    if moves == [] then g else Run(Apply(g, moves[0], grace), moves[1..], grace)
  }

  ghost predicate RecordExact(g: Gallery, v: string)
    requires v in g.st.video
  {
    var r := g.st.video[v].value;
    Shaped(r) && r.vehicleId == v && (Alive(g, v) ==> r.viewers == TallyOf(g, v).joined - TallyOf(g, v).left)
  }

  // A viewer index points at a record that counts a viewer and lapses no earlier.
  ghost predicate IndexCounts(g: Gallery, sid: string)
    requires sid in g.st.viewer
  {
    && sid != ""
    && (g.now <= g.st.viewer[sid].deadline ==>
          var v := g.st.viewer[sid].value;
          && v in g.st.video && g.st.viewer[sid].deadline <= g.st.video[v].deadline <= g.now + DAY
          && g.st.video[v].value.sessionId == sid && g.st.video[v].value.viewers >= 1)
  }

  ghost predicate Exact(g: Gallery) {
    && g.now > 0
    && (forall v :: v in g.st.video ==> RecordExact(g, v))
    && (forall sid :: sid in g.st.viewer ==> IndexCounts(g, sid))
  }

  function Changed(op: Op, n: int): int {
    match op
    case Join(_) => n + 1
    case Leave => if n > 0 then n - 1 else n
    case _ => n
  }

  lemma NamedHasId(st: Store, v: string, op: Op, grace: nat, now: int)
    requires op.Join? && op.uuid != ""
    ensures Do(st, v, op, grace, now).1.sessionId != ""
  {
  }

  // What an operation makes of a live record, and of an absent or lapsed one.
  lemma DoSummary(st: Store, v: string, op: Op, grace: nat, now: int)
    requires now > 0 && Proper(op) && Filed(st, v)
    ensures Lookup(st.video, v, now).Some? ==>
              var (st', r) := Do(st, v, op, grace, now);
              && v in st'.video && st'.video[v].value.viewers == r.viewers == Changed(op, st.video[v].value.viewers)
              && (st'.video[v].deadline == now + DAY || st'.video[v] == st.video[v])
              && (!op.Look? ==> st'.video[v].deadline == now + DAY)
              && st'.video[v].value.sessionId == r.sessionId
              && (st.video[v].value.sessionId != "" ==> r.sessionId == st.video[v].value.sessionId)
    ensures Lookup(st.video, v, now).None? ==>
              var (st', r) := Do(st, v, op, grace, now);
              if op.Look? then st' == st
              else && v in st'.video && st'.video[v].value.viewers == r.viewers == Changed(op, 0)
                   && st'.video[v].deadline == now + DAY && st'.video[v].value.sessionId == r.sessionId
  {
  }

  lemma OthersKeepRecord(g: Gallery, v: string, op: Op, grace: nat, w: string)
    requires g.now > 0 && Uncounted(op) && (v in g.st.video ==> RecordExact(g, v)) && (w in g.st.video ==> RecordExact(g, w))
    ensures var g' := Apply(g, Other(v, op), grace); w in g'.st.video ==> RecordExact(g', w)
  {
    DoFrames(g.st, v, op, grace, g.now);
    DoSummary(g.st, v, op, grace, g.now);
  }

  lemma OthersKeepIndex(g: Gallery, v: string, op: Op, grace: nat, sid: string)
    requires g.now > 0 && Uncounted(op) && (v in g.st.video ==> RecordExact(g, v)) && sid in g.st.viewer && IndexCounts(g, sid)
    ensures var g' := Apply(g, Other(v, op), grace); g'.st.viewer == g.st.viewer && IndexCounts(g', sid)
  {
    DoFrames(g.st, v, op, grace, g.now);
    DoSummary(g.st, v, op, grace, g.now);
  }

  lemma OthersKeepExact(g: Gallery, v: string, op: Op, grace: nat)
    requires Exact(g) && Uncounted(op)
    ensures Exact(Apply(g, Other(v, op), grace))
  {
    var g' := Apply(g, Other(v, op), grace);
    assert v in g.st.video ==> RecordExact(g, v);
    DoFrames(g.st, v, op, grace, g.now);
    forall w | w in g'.st.video ensures RecordExact(g', w) {
      OthersKeepRecord(g, v, op, grace, w);
    }
    forall sid | sid in g'.st.viewer ensures IndexCounts(g', sid) {
      OthersKeepIndex(g, v, op, grace, sid);
    }
  }

  lemma AcquireKeepsRecord(g: Gallery, v: string, uuid: string, grace: nat, w: string)
    requires g.now > 0 && uuid != "" && (v in g.st.video ==> RecordExact(g, v)) && (w in g.st.video ==> RecordExact(g, w))
    ensures var g' := Apply(g, Acquire(v, uuid), grace); w in g'.st.video ==> RecordExact(g', w)
  {
    DoFrames(g.st, v, Join(uuid), grace, g.now);
    DoSummary(g.st, v, Join(uuid), grace, g.now);
  }

  lemma AcquireKeepsRecords(g: Gallery, v: string, uuid: string, grace: nat)
    requires Exact(g) && uuid != ""
    ensures var g' := Apply(g, Acquire(v, uuid), grace); forall w :: w in g'.st.video ==> RecordExact(g', w)
  {
    var g' := Apply(g, Acquire(v, uuid), grace);
    forall w | w in g'.st.video ensures RecordExact(g', w) {
      AcquireKeepsRecord(g, v, uuid, grace, w);
    }
  }

  lemma AcquireKeepsExact(g: Gallery, v: string, uuid: string, grace: nat)
    requires Exact(g) && grace + HOUR <= DAY && uuid != ""
    ensures Exact(Apply(g, Acquire(v, uuid), grace))
  {
    var g' := Apply(g, Acquire(v, uuid), grace);
    AcquireKeepsRecords(g, v, uuid, grace);
    assert v in g.st.video ==> RecordExact(g, v);
    DoFrames(g.st, v, Join(uuid), grace, g.now);
    DoSummary(g.st, v, Join(uuid), grace, g.now);
    NamedHasId(g.st, v, Join(uuid), grace, g.now);
    var (st', r) := Do(g.st, v, Join(uuid), grace, g.now);
    forall sid | sid in g'.st.viewer ensures IndexCounts(g', sid) {
      if sid != r.sessionId { assert IndexCounts(g, sid); }
    }
  }

  lemma ReleaseKeepsExact(g: Gallery, sid: string, grace: nat)
    requires Exact(g) && Lookup(g.st.viewer, sid, g.now).Some?
    ensures Exact(Apply(g, Release(sid), grace))
  {
    var g' := Apply(g, Release(sid), grace);
    var v := g.st.viewer[sid].value;
    assert IndexCounts(g, sid) && RecordExact(g, v);
    DoFrames(g.st, v, Leave, grace, g.now);
    DoSummary(g.st, v, Leave, grace, g.now);
    forall w | w in g'.st.video ensures RecordExact(g', w) {
      assert w in g.st.video ==> RecordExact(g, w);
    }
    forall s | s in g'.st.viewer ensures IndexCounts(g', s) {
      assert IndexCounts(g, s);
    }
  }

  lemma StepKeepsExact(g: Gallery, m: Move, grace: nat)
    requires Exact(g) && grace + HOUR <= DAY
    ensures Exact(Apply(g, m, grace))
  {
    match m
    case Tick(d) =>
      var g' := Apply(g, m, grace);
      forall v | v in g.st.video ensures RecordExact(g', v) { assert RecordExact(g, v); }
      forall sid | sid in g.st.viewer ensures IndexCounts(g', sid) { assert IndexCounts(g, sid); }
    case Acquire(v, uuid) => if uuid != "" { AcquireKeepsExact(g, v, uuid, grace); }
    case Release(sid) => if Lookup(g.st.viewer, sid, g.now).Some? { ReleaseKeepsExact(g, sid, grace); }
    case Other(v, op) => if Uncounted(op) { OthersKeepExact(g, v, op, grace); }
  }

  lemma {:induction false} RunKeepsExact(g: Gallery, moves: seq<Move>, grace: nat)
    requires Exact(g) && grace + HOUR <= DAY
    ensures Exact(Run(g, moves, grace))
    decreases |moves|
  {
    if moves != [] {
      StepKeepsExact(g, moves[0], grace);
      RunKeepsExact(Apply(g, moves[0], grace), moves[1..], grace);
    }
  }

  // In every run: while a vehicle's record lives it counts exactly the successful joins minus the
  // successful leaves; a release that finds its index finds the video ACTIVE and takes one viewer off,
  // never none.
  lemma ViewersAreConserved(start: int, moves: seq<Move>, grace: nat, v: string, sid: string)
    requires start > 0 && grace + HOUR <= DAY
    ensures var g := Run(Gallery(start, EMPTY_STORE, map[]), moves, grace);
            && (Alive(g, v) ==> g.st.video[v].value.viewers == TallyOf(g, v).joined - TallyOf(g, v).left)
            && (Lookup(g.st.viewer, sid, g.now) == Some(v) ==>
                  && Alive(g, v) && g.st.video[v].value.viewers >= 1
                  && Get(g.st, v, g.now).1.mode == VideoMode.Active
                  && ReleaseViewer(g.st, sid, grace, g.now).1.Some?
                  && ReleaseViewer(g.st, sid, grace, g.now).1.value.viewers == g.st.video[v].value.viewers - 1)
  {
    RunKeepsExact(Gallery(start, EMPTY_STORE, map[]), moves, grace);
    var g := Run(Gallery(start, EMPTY_STORE, map[]), moves, grace);
    if v in g.st.video { assert RecordExact(g, v); }
    if sid in g.st.viewer { assert IndexCounts(g, sid); }
  }
}
