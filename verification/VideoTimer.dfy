// The stored record with its lazily applied deadline refines a machine whose timers fire on time.
module VideoTimer {
  import opened Types
  import opened VideoRecords

  // Idle shows STANDBY. A held video also falls back when nothing was saved for a day.
  datatype Machine =
    | Idle
    | Held(viewers: nat, controller: string, until: int)
    | Grace(deadline: int, until: int)

  function LetGo(viewers: nat, controller: string, grace: nat, now: int): Machine {
    if viewers == 0 && controller == "" then Grace(now + grace, now + DAY) else Held(viewers, controller, now + DAY)
  }

  function Viewers(m: Machine): nat {
    if m.Held? then m.viewers else 0
  }

  function Controller(m: Machine): string {
    if m.Held? then m.controller else ""
  }

  // What an operation does to the machine at an instant whose timers have fired.
  function OnOp(m: Machine, op: Op, grace: nat, now: int): Machine {
    match op
    case Look => m
    case Join(_) => Held(Viewers(m) + 1, Controller(m), now + DAY)
    case Leave => LetGo(if Viewers(m) > 0 then Viewers(m) - 1 else 0, Controller(m), grace, now)
    case Take(c, _) => Held(Viewers(m), c, now + DAY)
    case Quit(c) => LetGo(Viewers(m), if Controller(m) == c then "" else Controller(m), grace, now)
  }

  datatype Timed = Timed(at: int, op: Op)

  // The timer set for this very millisecond fires: the grace deadline, or the end of the kept record.
  function Fire(m: Machine, now: int): Machine {
    match m
    case Idle => Idle
    case Held(_, _, until) => if now == until + 1 then Idle else m
    case Grace(deadline, until) => if now == deadline || now == until + 1 then Idle else m
  }

  // d milliseconds pass after `now`, each with its timers.
  function Elapse(m: Machine, now: int, d: nat): Machine {
    if d == 0 then m else Fire(Elapse(m, now, d - 1), now + d)
  }

  // The eager machine: the clock moves in milliseconds and fires timers as they come due, and operations
  // happen in between. Nothing is ever looked up late.
  function Eager(m: Machine, now: int, ops: seq<Timed>, grace: nat, end: int): Machine
    requires InOrder(now, ops) && now <= end && forall i :: 0 <= i < |ops| ==> ops[i].at <= end
    decreases |ops|
  {
    if ops == [] then Elapse(m, now, end - now)
    else
      var t := ops[0];
      Eager(Fire(OnOp(Elapse(m, now, t.at - now), t.op, grace, t.at), t.at), t.at, ops[1..], grace, end)
  }

  predicate InOrder(now: int, ops: seq<Timed>) {
    && (forall i :: 0 <= i < |ops| ==> now <= ops[i].at)
    && (forall i, j :: 0 <= i < j < |ops| ==> ops[i].at <= ops[j].at)
  }

  function RunStore(st: Store, v: string, ops: seq<Timed>, grace: nat): Store
    decreases |ops|
  {
    if ops == [] then st else RunStore(Do(st, v, ops[0].op, grace, ops[0].at).0, v, ops[1..], grace)
  }

  datatype Observed = Observed(mode: VideoMode, viewers: int, controller: string, deadline: int)

  // What GET shows of the stored record at an instant.
  function Shown(st: Store, v: string, now: int): Observed {
    var r := Get(st, v, now).1;
    Observed(r.mode, r.viewers, r.controller, r.graceDeadline)
  }

  function MachineShows(m: Machine): Observed {
    match m
    case Idle => Observed(VideoMode.Standby, 0, "", 0)
    case Held(n, c, _) => Observed(VideoMode.Active, n, c, 0)
    case Grace(d, _) => Observed(VideoMode.Active, 0, "", d)
  }

  // ---------- catching up ----------

  // All timers due by `now` at once, which is how the code applies them when it next reads the record.
  function CatchUp(m: Machine, now: int): Machine {
    match m
    case Idle => Idle
    case Held(_, _, until) => if now > until then Idle else m
    case Grace(deadline, until) => if now >= deadline || now > until then Idle else m
  }

  // No timer is overdue.
  predicate Punctual(m: Machine, now: int) {
    match m
    case Idle => true
    case Held(_, _, until) => now <= until
    case Grace(deadline, until) => now < deadline && now <= until
  }

  // Letting time pass millisecond by millisecond and catching up later are the same.
  lemma {:induction false} ElapseIsCatchUp(m: Machine, now: int, d: nat)
    requires Punctual(m, now)
    ensures Elapse(m, now, d) == CatchUp(m, now + d) && Punctual(Elapse(m, now, d), now + d)
    decreases d
  {
    if d > 0 { ElapseIsCatchUp(m, now, d - 1); }
  }

  lemma OpThenFire(m: Machine, op: Op, grace: nat, now: int)
    requires Punctual(m, now)
    ensures Fire(OnOp(m, op, grace, now), now) == CatchUp(OnOp(m, op, grace, now), now)
    ensures Punctual(Fire(OnOp(m, op, grace, now), now), now)
  {
  }

  // The machine state a stored record stands for.
  function Stands(st: Store, v: string): Machine
    requires Filed(st, v)
  {
    if v !in st.video || IsStandby(st.video[v].value) then Idle
    else if IsHeld(st.video[v].value) then
      Held(st.video[v].value.viewers, st.video[v].value.controller, st.video[v].deadline)
    else Grace(st.video[v].value.graceDeadline, st.video[v].deadline)
  }

  // The stored record may be behind the machine, but never once its due timers are taken into account.
  ghost predicate Matches(st: Store, v: string, m: Machine, now: int) {
    Filed(st, v) && CatchUp(Stands(st, v), now) == m
  }

  predicate Ordered(now: int, ops: seq<Timed>) {
    InOrder(now, ops) && forall i :: 0 <= i < |ops| ==> Proper(ops[i].op)
  }

  // Timed operations of a run up to an instant.
  predicate History(ops: seq<Timed>, start: int, at: int) {
    0 < start <= at && Ordered(start, ops) && forall i :: 0 <= i < |ops| ==> ops[i].at <= at
  }

  lemma GetMatches(st: Store, v: string, m: Machine, now: int)
    requires Matches(st, v, m, now)
    ensures Shown(st, v, now) == MachineShows(m) && Punctual(m, now)
    ensures var (st', r) := Get(st, v, now);
            Matches(st', v, m, now) && Shaped(r) && r.vehicleId == v
  {
  }

  lemma DoMatches(st: Store, v: string, m: Machine, op: Op, grace: nat, now: int)
    requires Matches(st, v, m, now) && now > 0 && Proper(op)
    ensures Matches(Do(st, v, op, grace, now).0, v, Fire(OnOp(m, op, grace, now), now), now)
  {
    GetMatches(st, v, m, now);
    OpThenFire(m, op, grace, now);
    if !op.Look? {
      EditMatches(st, v, m, op, grace, now);
    }
  }

  lemma EditMatches(st: Store, v: string, m: Machine, op: Op, grace: nat, now: int)
    requires Matches(st, v, m, now) && now > 0 && Proper(op) && !op.Look?
    ensures Matches(Do(st, v, op, grace, now).0, v, CatchUp(OnOp(m, op, grace, now), now), now)
  {
    EditKeepsShape(Get(st, v, now).1, op, grace, now);
  }

  lemma MatchesLater(st: Store, v: string, m: Machine, now: int, d: nat)
    requires Matches(st, v, m, now)
    ensures Matches(st, v, Elapse(m, now, d), now + d)
  {
    GetMatches(st, v, m, now);
    ElapseIsCatchUp(m, now, d);
  }

  lemma {:induction false} RunMatches(st: Store, v: string, m: Machine, ops: seq<Timed>, grace: nat, start: int, now: int)
    requires Matches(st, v, m, start) && History(ops, start, now)
    ensures Matches(RunStore(st, v, ops, grace), v, Eager(m, start, ops, grace, now), now)
    decreases |ops|
  {
    if ops == [] {
      MatchesLater(st, v, m, start, now - start);
    } else {
      var t := ops[0];
      var m1 := Elapse(m, start, t.at - start);
      MatchesLater(st, v, m, start, t.at - start);
      DoMatches(st, v, m1, t.op, grace, t.at);
      RunMatches(Do(st, v, t.op, grace, t.at).0, v, Fire(OnOp(m1, t.op, grace, t.at), t.at), ops[1..], grace, t.at, now);
    }
  }

  // For every sequence of timed operations, GET shows what the eager machine shows, at every instant.
  lemma LazyRefinesEager(v: string, ops: seq<Timed>, grace: nat, start: int, now: int)
    requires History(ops, start, now)
    ensures Shown(RunStore(EMPTY_STORE, v, ops, grace), v, now) == MachineShows(Eager(Idle, start, ops, grace, now))
  {
    RunMatches(EMPTY_STORE, v, Idle, ops, grace, start, now);
    GetMatches(RunStore(EMPTY_STORE, v, ops, grace), v, Eager(Idle, start, ops, grace, now), now);
  }

  // ---------- extra reads are invisible ----------

  function WithoutLooks(ops: seq<Timed>): seq<Timed> {
    if ops == [] then [] else (if ops[0].op.Look? then [] else [ops[0]]) + WithoutLooks(ops[1..])
  }

  lemma HistoryTail(ops: seq<Timed>, start: int, now: int)
    requires History(ops, start, now) && ops != []
    ensures start <= ops[0].at <= now && History(ops[1..], ops[0].at, now) && History(ops[1..], start, now)
  {
    assert Ordered(ops[0].at, ops[1..]) && Ordered(start, ops[1..]);
  }

  lemma {:induction false} WithoutLooksIsHistory(ops: seq<Timed>, start: int, now: int)
    requires History(ops, start, now)
    ensures History(WithoutLooks(ops), start, now)
    decreases |ops|
  {
    if ops != [] {
      HistoryTail(ops, start, now);
      WithoutLooksIsHistory(ops[1..], ops[0].at, now);
    }
  }

  // Passing time in two stretches.
  lemma {:induction false} ElapseTwice(m: Machine, now: int, a: nat, b: nat)
    ensures Elapse(m, now, a + b) == Elapse(Elapse(m, now, a), now + a, b)
    decreases b
  {
    if b > 0 { ElapseTwice(m, now, a, b - 1); }
  }

  lemma {:induction false} EagerLater(m: Machine, now: int, d: nat, ops: seq<Timed>, grace: nat, end: int)
    requires InOrder(now + d, ops) && now + d <= end && forall i :: 0 <= i < |ops| ==> ops[i].at <= end
    ensures Eager(m, now, ops, grace, end) == Eager(Elapse(m, now, d), now + d, ops, grace, end)
  {
    var next := if ops == [] then end else ops[0].at;
    ElapseTwice(m, now, d, next - now - d);
  }

  lemma SkipLook(m: Machine, ops: seq<Timed>, grace: nat, start: int, now: int)
    requires Punctual(m, start) && History(ops, start, now) && ops != [] && ops[0].op.Look?
    ensures History(ops[1..], start, now) && Eager(m, start, ops, grace, now) == Eager(m, start, ops[1..], grace, now)
  {
    var t := ops[0];
    HistoryTail(ops, start, now);
    ElapseIsCatchUp(m, start, t.at - start);
    OpThenFire(Elapse(m, start, t.at - start), t.op, grace, t.at);
    EagerLater(m, start, t.at - start, ops[1..], grace, now);
  }

  lemma FirstOperation(m: Machine, ops: seq<Timed>, grace: nat, start: int, now: int) returns (m1: Machine)
    requires Punctual(m, start) && History(ops, start, now) && ops != []
    ensures History(ops[1..], ops[0].at, now) && Punctual(m1, ops[0].at)
    ensures m1 == Fire(OnOp(Elapse(m, start, ops[0].at - start), ops[0].op, grace, ops[0].at), ops[0].at)
    ensures Eager(m, start, ops, grace, now) == Eager(m1, ops[0].at, ops[1..], grace, now)
  {
    var t := ops[0];
    HistoryTail(ops, start, now);
    ElapseIsCatchUp(m, start, t.at - start);
    OpThenFire(Elapse(m, start, t.at - start), t.op, grace, t.at);
    m1 := Fire(OnOp(Elapse(m, start, t.at - start), t.op, grace, t.at), t.at);
  }

  lemma WithoutLooksFirst(ops: seq<Timed>)
    requires ops != []
    ensures if ops[0].op.Look? then WithoutLooks(ops) == WithoutLooks(ops[1..])
            else WithoutLooks(ops) != [] && WithoutLooks(ops)[0] == ops[0] && WithoutLooks(ops)[1..] == WithoutLooks(ops[1..])
  {
  }

  lemma {:induction false} LooksDoNotMatter(m: Machine, ops: seq<Timed>, quiet: seq<Timed>, grace: nat, start: int, now: int)
    requires Punctual(m, start) && History(ops, start, now) && History(quiet, start, now) && quiet == WithoutLooks(ops)
    ensures Eager(m, start, ops, grace, now) == Eager(m, start, quiet, grace, now)
    decreases |ops|
  {
    if ops != [] {
      WithoutLooksFirst(ops);
      if ops[0].op.Look? {
        SkipLook(m, ops, grace, start, now);
        LooksDoNotMatter(m, ops[1..], quiet, grace, start, now);
      } else {
        var m1 := FirstOperation(m, ops, grace, start, now);
        var m2 := FirstOperation(m, quiet, grace, start, now);
        LooksDoNotMatter(m1, ops[1..], quiet[1..], grace, ops[0].at, now);
      }
    }
  }

  // Dropping any or all extra GETs from a history changes nothing that is ever shown later,
  // although a GET may write to Redis.
  lemma ExtraGetsAreInvisible(v: string, ops: seq<Timed>, grace: nat, start: int, now: int)
    requires History(ops, start, now)
    ensures Shown(RunStore(EMPTY_STORE, v, ops, grace), v, now) ==
            Shown(RunStore(EMPTY_STORE, v, WithoutLooks(ops), grace), v, now)
  {
    WithoutLooksIsHistory(ops, start, now);
    LooksDoNotMatter(Idle, ops, WithoutLooks(ops), grace, start, now);
    LazyRefinesEager(v, ops, grace, start, now);
    LazyRefinesEager(v, WithoutLooks(ops), grace, start, now);
  }

  // ---------- single steps after any history ----------

  // What GET shows at any later instant after one more operation on a history.
  function ShownAfter(v: string, ops: seq<Timed>, op: Op, grace: nat, at: int, now: int): Observed {
    Shown(Do(RunStore(EMPTY_STORE, v, ops, grace), v, op, grace, at).0, v, now)
  }

  lemma OneMoreOperation(v: string, ops: seq<Timed>, op: Op, grace: nat, start: int, at: int, now: int) returns (m: Machine)
    requires History(ops, start, at) && Proper(op) && at <= now
    ensures Punctual(m, at) && MachineShows(m) == Shown(RunStore(EMPTY_STORE, v, ops, grace), v, at)
    ensures ShownAfter(v, ops, op, grace, at, now) == MachineShows(CatchUp(OnOp(m, op, grace, at), now))
  {
    m := Eager(Idle, start, ops, grace, at);
    var before := RunStore(EMPTY_STORE, v, ops, grace);
    RunMatches(EMPTY_STORE, v, Idle, ops, grace, start, at);
    GetMatches(before, v, m, at);
    DoMatches(before, v, m, op, grace, at);
    OpThenFire(m, op, grace, at);
    var m1 := Fire(OnOp(m, op, grace, at), at);
    var after := Do(before, v, op, grace, at).0;
    MatchesLater(after, v, m1, at, now - at);
    GetMatches(after, v, Elapse(m1, at, now - at), now);
    ElapseIsCatchUp(m1, at, now - at);
  }

  // A viewer who joins during the grace period cancels it: with nobody leaving, the video stays ACTIVE
  // past the old deadline, for as long as the record is kept.
  lemma JoinCancelsGrace(v: string, ops: seq<Timed>, grace: nat, start: int, at: int, uuid: string, now: int)
    requires History(ops, start, at) && at <= now <= at + DAY
    requires Shown(RunStore(EMPTY_STORE, v, ops, grace), v, at).deadline > 0
    ensures ShownAfter(v, ops, Join(uuid), grace, at, now) == Observed(VideoMode.Active, 1, "", 0)
  {
    var m := OneMoreOperation(v, ops, Join(uuid), grace, start, at, now);
  }

  // After the last viewer or controller left, whatever came before, the video is in STANDBY from the
  // end of the grace period on, or of the day the record is kept, and at no earlier instant.
  lemma GraceEndsAtItsDeadline(v: string, ops: seq<Timed>, op: Op, grace: nat, start: int, at: int, now: int)
    requires History(ops, start, at) && at <= now && Proper(op) && !op.Look?
    requires var left := ShownAfter(v, ops, op, grace, at, at); left.viewers == 0 && left.controller == ""
    ensures ShownAfter(v, ops, op, grace, at, now).mode == VideoMode.Standby <==> now >= at + grace || now > at + DAY
  {
    var m := OneMoreOperation(v, ops, op, grace, start, at, now);
    m := OneMoreOperation(v, ops, op, grace, start, at, at);
  }

  // STANDBY is left by a request for video, and besides by every leave and every cleared controller that
  // lands on it, wherever there is a grace period to begin.
  lemma WhatLeavesStandby(v: string, ops: seq<Timed>, op: Op, grace: nat, start: int, at: int)
    requires History(ops, start, at) && Proper(op)
    requires Shown(RunStore(EMPTY_STORE, v, ops, grace), v, at).mode == VideoMode.Standby
    ensures ShownAfter(v, ops, op, grace, at, at).mode == VideoMode.Active <==>
              op.Join? || op.Take? || ((op.Leave? || op.Quit?) && grace > 0)
  {
    var m := OneMoreOperation(v, ops, op, grace, start, at, at);
  }

  lemma AtOnce(m: Machine, op: Op, now: int, rest: seq<Timed>, grace: nat, end: int)
    requires InOrder(now, rest) && now <= end && forall i :: 0 <= i < |rest| ==> rest[i].at <= end
    ensures Eager(m, now, [Timed(now, op)] + rest, grace, end) == Eager(Fire(OnOp(m, op, grace, now), now), now, rest, grace, end)
  {
    assert ([Timed(now, op)] + rest)[1..] == rest;
  }

  // Ann controls, Bob takes over and gives up, all at once.
  function TakenOver(start: int, uuid: string): seq<Timed> {
    [Timed(start, Take("ann", uuid))] + ([Timed(start, Take("bob", uuid))] + ([Timed(start, Quit("bob"))] + []))
  }

  lemma TakenOverIsHistory(start: int, uuid: string, end: int)
    requires 0 < start <= end
    ensures History(TakenOver(start, uuid), start, end)
  {
  }

  lemma TakenOverIsOver(start: int, uuid: string, grace: nat)
    requires start > 0 && grace > 0 && History(TakenOver(start, uuid), start, start + grace)
    ensures Eager(Idle, start, TakenOver(start, uuid), grace, start + grace) == Idle
  {
    var end := start + grace;
    var q: seq<Timed> := [Timed(start, Quit("bob"))] + [];
    var b := [Timed(start, Take("bob", uuid))] + q;
    AtOnce(Idle, Take("ann", uuid), start, b, grace, end);
    AtOnce(Held(0, "ann", start + DAY), Take("bob", uuid), start, q, grace, end);
    AtOnce(Held(0, "bob", start + DAY), Quit("bob"), start, [], grace, end);
    ElapseIsCatchUp(Grace(end, start + DAY), start, grace);
  }

  // After that the grace period ends: STANDBY. Then the clearing of Ann's control, delayed until now,
  // switches the video back to ACTIVE with nobody there.
  lemma LateClearRevivesVideo(v: string, grace: nat, start: int, uuid: string)
    requires start > 0 && grace > 0
    ensures var ops, end := TakenOver(start, uuid), start + grace;
            && Shown(RunStore(EMPTY_STORE, v, ops, grace), v, end).mode == VideoMode.Standby
            && ShownAfter(v, ops, Quit("ann"), grace, end, end) == Observed(VideoMode.Active, 0, "", end + grace)
  {
    var ops, end := TakenOver(start, uuid), start + grace;
    TakenOverIsHistory(start, uuid, end);
    TakenOverIsOver(start, uuid, grace);
    LazyRefinesEager(v, ops, grace, start, end);
    LateClearStarts(v, ops, grace, start, end);
  }

  lemma LateClearStarts(v: string, ops: seq<Timed>, grace: nat, start: int, at: int)
    requires History(ops, start, at) && grace > 0
    requires Shown(RunStore(EMPTY_STORE, v, ops, grace), v, at).mode == VideoMode.Standby
    ensures ShownAfter(v, ops, Quit("ann"), grace, at, at) == Observed(VideoMode.Active, 0, "", at + grace)
  {
    var m := OneMoreOperation(v, ops, Quit("ann"), grace, start, at, at);
  }
}
