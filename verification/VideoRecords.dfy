// The video session record, its lazily applied grace timer, and the gateway's operations on it.
module VideoRecords {
  import opened Types

  const DAY := 24 * 60 * 60 * 1000
  const HOUR := 60 * 60 * 1000

  // A read that finds nothing.
  function Blank(v: string, now: int): VideoSession {
    VideoSession(v, "", VideoMode.Standby, 0, "", 0, now, now)
  }

  predicate Lapsed(r: VideoSession, now: int) {
    r.mode == VideoMode.Active && r.viewers == 0 && r.controller == "" && r.graceDeadline > 0 && now >= r.graceDeadline
  }

  function Rest(r: VideoSession): VideoSession {
    r.(mode := VideoMode.Standby, graceDeadline := 0)
  }

  function Named(r: VideoSession, uuid: string, now: int): VideoSession {
    if r.sessionId == "" then r.(sessionId := uuid, createdAt := now) else r
  }

  function Settle(r: VideoSession, grace: nat, now: int): VideoSession {
    if r.viewers == 0 && r.controller == "" then r.(mode := VideoMode.Active, graceDeadline := now + grace) else r
  }

  // What one operation does to the record it read.
  datatype Op =
    | Look
    | Join(uuid: string)
    | Leave
    | Take(controller: string, uuid: string)
    | Quit(controller: string)

  function Edit(r: VideoSession, op: Op, grace: nat, now: int): VideoSession {
    match op
    case Look => r
    case Join(uuid) => Named(r, uuid, now).(viewers := r.viewers + 1, mode := VideoMode.Active, graceDeadline := 0)
    case Leave => Settle(if r.viewers > 0 then r.(viewers := r.viewers - 1) else r, grace, now)
    case Take(c, uuid) => Named(r, uuid, now).(controller := c, mode := VideoMode.Active, graceDeadline := 0)
    case Quit(c) => Settle(if r.controller == c then r.(controller := "") else r, grace, now)
  }

  function WithExpiry(r: VideoSession, now: int): VideoSession {
    if r.expiresAt == 0 then r.(expiresAt := now + DAY) else r
  }

  function Save(st: Store, r: VideoSession, now: int): Store {
    st.(video := st.video[r.vehicleId := Entry(WithExpiry(r, now), now + DAY)])
  }

  // Get: a read, and a save when it applies an overdue grace deadline.
  function Get(st: Store, v: string, now: int): (Store, VideoSession) {
    match Lookup(st.video, v, now)
    case None => (st, Blank(v, now))
    case Some(r) => if Lapsed(r, now) then (Save(st, Rest(r), now), Rest(r)) else (st, r)
  }

  // One operation on a vehicle's record, with no other one in between.
  function Do(st: Store, v: string, op: Op, grace: nat, now: int): (Store, VideoSession) {
    var (st', r) := Get(st, v, now);
    if op.Look? then (st', r)
    else
      var r' := Edit(r, op, grace, now);
      (Save(st', r', now), r')
  }

  function AcquireViewer(st: Store, v: string, uuid: string, grace: nat, now: int): (Store, VideoSession) {
    var (st', r) := Do(st, v, Join(uuid), grace, now);
    (st'.(viewer := st'.viewer[r.sessionId := Entry(v, now + grace + HOUR)]), r)
  }

  function ReleaseViewer(st: Store, sid: string, grace: nat, now: int): (Store, Option<VideoSession>) {
    match Lookup(st.viewer, sid, now)
    case None => (st, None)
    case Some(v) =>
      var (st', r) := Do(st, v, Leave, grace, now);
      (st'.(viewer := st'.viewer - {sid}), Some(r))
  }

  // ---------- the three shapes of a record ----------

  predicate IsStandby(r: VideoSession) {
    r.mode == VideoMode.Standby && r.viewers == 0 && r.controller == "" && r.graceDeadline == 0
  }

  predicate IsHeld(r: VideoSession) {
    r.mode == VideoMode.Active && r.viewers >= 0 && (r.viewers > 0 || r.controller != "") && r.graceDeadline == 0
  }

  predicate IsGrace(r: VideoSession) {
    r.mode == VideoMode.Active && r.viewers == 0 && r.controller == "" && r.graceDeadline > 0
  }

  predicate Shaped(r: VideoSession) {
    IsStandby(r) || IsHeld(r) || IsGrace(r)
  }

  // Control session ids are never empty.
  predicate Proper(op: Op) {
    op.Take? ==> op.controller != ""
  }

  lemma EditKeepsShape(r: VideoSession, op: Op, grace: nat, now: int)
    requires Shaped(r) && Proper(op) && now > 0
    ensures Shaped(Edit(r, op, grace, now)) && Edit(r, op, grace, now).vehicleId == r.vehicleId
  {
  }

  // A vehicle's record, if any, has one of the three shapes and names its own vehicle.
  predicate Filed(st: Store, v: string) {
    v in st.video ==> Shaped(st.video[v].value) && st.video[v].value.vehicleId == v
  }

  lemma DoFrames(st: Store, v: string, op: Op, grace: nat, now: int)
    requires now > 0 && Proper(op) && Filed(st, v)
    ensures var st' := Do(st, v, op, grace, now).0;
            && st'.viewer == st.viewer && Filed(st', v)
            && (forall w :: w != v ==> (w in st'.video <==> w in st.video))
            && (forall w :: w != v && w in st.video ==> st'.video[w] == st.video[w])
  {
    EditKeepsShape(Get(st, v, now).1, op, grace, now);
  }
}
