// The browser's renewal schedule, followed along a run, makes every renewal timely for the vehicle.
module BrowserSchedule {
  import opened Types
  import opened ControlLease
  import opened VehicleVerifier
  import opened EndToEnd
  import P = PromptRenewal
  import R = Renewal
  import S = ReplaySafety
  import Gateway = ControlSystem
  import Vehicle = VehicleNode

  // What an observer of the gateway keeps: when each client's request began, when the vehicle's lease was
  // last granted, and how many renewal rounds were granted since.
  datatype Book = Book(began: map<nat, int>, acquired: int, rounds: nat)

  datatype Times = Times(delay: nat, latency: nat)

  // The script this action sends about the vehicle's lease was granted.
  predicate Grants(g: Gateway.Sys, b: Gateway.Action, v: string, ttl: int) {
    && b.Advance? && b.c in g.clients && !g.clients[b.c].Done?
    && ClientStep(g.clients[b.c], g.st, g.now, ttl).0 == Done(Ok)
    && ((g.clients[b.c].Acquiring? && g.clients[b.c].session.vehicleId == v)
        || (g.clients[b.c].RunningScript? && g.clients[b.c].req.Renew? && g.clients[b.c].vehicle == v))
  }

  function Note(m: Book, g: Gateway.Sys, b: Gateway.Action, v: string, ttl: int): Book {
    if (b.CallAcquire? || b.Call?) && Gateway.Idle(g, b.c) then m.(began := m.began[b.c := g.now])
    else if Grants(g, b, v, ttl) then
      if g.clients[b.c].Acquiring? then m.(acquired := g.now, rounds := 0) else m.(rounds := m.rounds + 1)
    else m
  }

  // An acquire is answered within the latency; each granted renewal is the next round's, asked for when its
  // timer fires and answered within the latency.
  predicate OnTime(m: Book, g: Gateway.Sys, b: Gateway.Action, v: string, t: Times, ttl: int) {
    Grants(g, b, v, ttl) && b.c in m.began ==>
      if g.clients[b.c].Acquiring? then g.now <= m.began[b.c] + t.latency
      else
        var slot := R.Slot(m.acquired, t.delay, ttl, m.rounds + 1);
        slot <= m.began[b.c] && g.now <= slot + t.latency
  }

  ghost predicate Scheduled(w: World, m: Book, acts: seq<Action>, t: Times, c: Vehicle.Config, ttl: int)
    decreases |acts|
  {
    acts == [] ||
    (&& (acts[0].Gateways? ==> OnTime(m, w.g, acts[0].step, c.limits.vehicleId, t, ttl))
     && Scheduled(Apply(w, acts[0], c, ttl), NoteIn(m, w, acts[0], c, ttl), acts[1..], t, c, ttl))
  }

  function NoteIn(m: Book, w: World, a: Action, c: Vehicle.Config, ttl: int): Book {
    if a.Gateways? && Apply(w, a, c, ttl) != w then Note(m, w.g, a.step, c.limits.vehicleId, ttl) else m
  }

  // The instant from which the record in force lasts at least a lease time.
  function RecordFrom(m: Book, t: Times, ttl: int): int {
    if m.rounds == 0 then m.acquired - t.latency else R.Slot(m.acquired, t.delay, ttl, m.rounds)
  }

  // A request's clock reading is no earlier than its beginning.
  predicate BeganOk(m: Book, client: Client, c: nat, now: int, ttl: int) {
    !client.Done? ==>
      && c in m.began && m.began[c] <= now
      && (client.Acquiring? ==> client.session.expiresAt == m.began[c] + ttl)
      && (client.RunningScript? && client.req.Renew? ==> client.expiresAt >= m.began[c] + ttl)
  }

  ghost predicate BookOk(m: Book, g: Gateway.Sys, v: string, t: Times, ttl: int) {
    && (forall c :: c in g.clients ==> BeganOk(m, g.clients[c], c, g.now, ttl))
    && (v in g.st.lease ==> g.st.lease[v].value.expiresAt >= RecordFrom(m, t, ttl) + ttl)
  }

  lemma StepKeepsBegan(m: Book, g: Gateway.Sys, b: Gateway.Action, v: string, t: Times, ttl: int, c: nat)
    requires BookOk(m, g, v, t, ttl) && c in Gateway.Apply(g, b, ttl).clients
    ensures var g' := Gateway.Apply(g, b, ttl); BeganOk(Note(m, g, b, v, ttl), g'.clients[c], c, g'.now, ttl)
  {
    if c in g.clients { assert BeganOk(m, g.clients[c], c, g.now, ttl); }
  }

  lemma GrantWrites(st: Store, cl: Client, now: int, ttl: int, v: string)
    requires !cl.Done?
    ensures var (c', st') := ClientStep(cl, st, now, ttl);
            v in st'.lease ==>
              || (v in st.lease && st'.lease[v] == st.lease[v])
              || (c' == Done(Ok) && cl.Acquiring? && cl.session.vehicleId == v && st'.lease[v].value == cl.session)
              || (c' == Done(Ok) && cl.RunningScript? && cl.req.Renew? && cl.vehicle == v && st'.lease[v].value.expiresAt == cl.expiresAt)
    ensures var (c', st') := ClientStep(cl, st, now, ttl);
            c' == Done(Ok) && cl.Acquiring? && cl.session.vehicleId == v ==> v in st'.lease && st'.lease[v].value == cl.session
    ensures var (c', st') := ClientStep(cl, st, now, ttl);
            c' == Done(Ok) && cl.RunningScript? && cl.req.Renew? && cl.vehicle == v ==>
              v in st'.lease && st'.lease[v].value.expiresAt == cl.expiresAt
  {
  }

  lemma StepKeepsRecord(m: Book, g: Gateway.Sys, b: Gateway.Action, v: string, t: Times, ttl: int)
    requires BookOk(m, g, v, t, ttl) && OnTime(m, g, b, v, t, ttl)
    ensures var g' := Gateway.Apply(g, b, ttl);
            v in g'.st.lease ==> g'.st.lease[v].value.expiresAt >= RecordFrom(Note(m, g, b, v, ttl), t, ttl) + ttl
  {
    if b.Advance? && b.c in g.clients && !g.clients[b.c].Done? {
      assert BeganOk(m, g.clients[b.c], b.c, g.now, ttl);
      GrantWrites(g.st, g.clients[b.c], g.now, ttl, v);
    }
  }

  lemma StepKeepsBook(m: Book, g: Gateway.Sys, b: Gateway.Action, v: string, t: Times, ttl: int)
    requires BookOk(m, g, v, t, ttl) && OnTime(m, g, b, v, t, ttl)
    ensures BookOk(Note(m, g, b, v, ttl), Gateway.Apply(g, b, ttl), v, t, ttl)
  {
    forall c | c in Gateway.Apply(g, b, ttl).clients
      ensures BeganOk(Note(m, g, b, v, ttl), Gateway.Apply(g, b, ttl).clients[c], c, Gateway.Apply(g, b, ttl).now, ttl)
    {
      StepKeepsBegan(m, g, b, v, t, ttl, c);
    }
    StepKeepsRecord(m, g, b, v, t, ttl);
  }

  // Delay, latency and one refresh gap fit in what the record has left when the next round is due.
  predicate Roomy(t: Times, c: Vehicle.Config, ttl: int) {
    t.delay + 2 * t.latency + P.RefreshGap(c) <= ttl - R.Period(ttl)
  }

  lemma OnTimeIsTimely(w: World, m: Book, a: Action, t: Times, c: Vehicle.Config, ttl: int)
    requires BookOk(m, w.g, c.limits.vehicleId, t, ttl) && Roomy(t, c, ttl)
    requires a.Gateways? ==> OnTime(m, w.g, a.step, c.limits.vehicleId, t, ttl)
    ensures P.RenewsInTime(w, a, c, ttl)
  {
    if a.Gateways? && a.step.Advance? && a.step.c in w.g.clients {
      assert BeganOk(m, w.g.clients[a.step.c], a.step.c, w.g.now, ttl);
      assert R.Slot(m.acquired, t.delay, ttl, 0) == m.acquired + t.delay;
    }
  }

  lemma StepKeepsBookInWorld(w: World, m: Book, a: Action, t: Times, c: Vehicle.Config, ttl: int)
    requires BookOk(m, w.g, c.limits.vehicleId, t, ttl)
    requires a.Gateways? ==> OnTime(m, w.g, a.step, c.limits.vehicleId, t, ttl)
    ensures BookOk(NoteIn(m, w, a, c, ttl), Apply(w, a, c, ttl).g, c.limits.vehicleId, t, ttl)
  {
    if a.Gateways? && Apply(w, a, c, ttl) != w {
      StepKeepsBook(m, w.g, a.step, c.limits.vehicleId, t, ttl);
    } else {
      forall k | k in w.g.clients ensures BeganOk(m, w.g.clients[k], k, Apply(w, a, c, ttl).g.now, ttl) {
        assert BeganOk(m, w.g.clients[k], k, w.g.now, ttl);
      }
    }
  }

  lemma {:induction false} ScheduleIsTimely(w: World, m: Book, acts: seq<Action>, t: Times, c: Vehicle.Config, ttl: int)
    requires BookOk(m, w.g, c.limits.vehicleId, t, ttl) && Roomy(t, c, ttl) && Scheduled(w, m, acts, t, c, ttl)
    ensures P.TimelyRun(w, acts, c, ttl)
    decreases |acts|
  {
    if acts != [] {
      OnTimeIsTimely(w, m, acts[0], t, c, ttl);
      StepKeepsBookInWorld(w, m, acts[0], t, c, ttl);
      ScheduleIsTimely(Apply(w, acts[0], c, ttl), NoteIn(m, w, acts[0], c, ttl), acts[1..], t, c, ttl);
    }
  }

  // If every acquire of the vehicle is answered within the latency and its renewals come as the browser
  // sends them, every half lease and answered within the latency, and half a lease leaves room for the
  // delay, two latencies and a refresh gap, then no packet is accepted twice and each session's numbers
  // rise, whatever is lost, delayed or replayed and however often the vehicle reloads.
  lemma ScheduledRenewalNeedsNoGap(start: int, acts: seq<Action>, t: Times, c: Vehicle.Config, ttl: int)
    requires ttl > 0 && Roomy(t, c, ttl) && Scheduled(Start(start, c), Book(map[], start, 0), acts, t, c, ttl)
    requires c.interval > c.limits.maxAge + c.limits.maxSkew
    ensures var log := Run(Start(start, c), acts, c, ttl).n.log;
            && S.Ordered(log)
            && forall i, j :: 0 <= i < j < |log| ==> log[i].packet != log[j].packet
  {
    ScheduleIsTimely(Start(start, c), Book(map[], start, 0), acts, t, c, ttl);
    P.TimelyRenewalNeedsNoGap(start, acts, c, ttl);
  }
}
