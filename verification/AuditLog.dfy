// The vehicle's audit queue: at most one event of a kind every five seconds.
module AuditLog {
  datatype AuditEvent = CommandRejected | EmergencyStop | WatchdogTimeout

  datatype Audit = Audit(queue: seq<AuditEvent>, lastAt: map<AuditEvent, int>)

  const AUDIT_GAP := 5000

  function LastAt(a: Audit, event: AuditEvent): int {
    if event in a.lastAt then a.lastAt[event] else 0
  }

  // _queue_audit_event, at an instant of the monotonic clock.
  function Queue(a: Audit, event: AuditEvent, now: int): Audit {
    if now - LastAt(a, event) < AUDIT_GAP then a else Audit(a.queue + [event], a.lastAt[event := now])
  }

  datatype Offer = Offer(event: AuditEvent, at: int)

  function Offered(a: Audit, offers: seq<Offer>): Audit {
    if offers == [] then a
    else Queue(Offered(a, offers[..|offers| - 1]), offers[|offers| - 1].event, offers[|offers| - 1].at)
  }

  // The i-th offer was queued.
  predicate Queued(a: Audit, offers: seq<Offer>, i: nat)
    requires i < |offers|
  {
    Offered(a, offers[..i + 1]).queue != Offered(a, offers[..i]).queue
  }

  // An offer is queued, behind what is there, if and only if its kind was not remembered within five
  // seconds; it is remembered, alone of all kinds, if and only if it is queued.
  lemma QueuesIff(a: Audit, offers: seq<Offer>, i: nat)
    requires i < |offers|
    ensures var before, after := Offered(a, offers[..i]), Offered(a, offers[..i + 1]);
            && (Queued(a, offers, i) <==> offers[i].at - LastAt(before, offers[i].event) >= 5000)
            && after.queue == before.queue + (if Queued(a, offers, i) then [offers[i].event] else [])
            && after.lastAt == if Queued(a, offers, i) then before.lastAt[offers[i].event := offers[i].at] else before.lastAt
  {
    assert offers[..i + 1][..i] == offers[..i] && offers[..i + 1][i] == offers[i];
  }

  // The last instant at which an event of a kind was queued is remembered.
  lemma {:induction false} RemembersLast(a: Audit, offers: seq<Offer>, i: nat, n: nat)
    requires i < n <= |offers| && Queued(a, offers, i)
    requires forall j, k :: 0 <= j < k < |offers| ==> offers[j].at <= offers[k].at
    ensures LastAt(Offered(a, offers[..n]), offers[i].event) >= offers[i].at
    decreases n
  {
    QueuesIff(a, offers, n - 1);
    if i < n - 1 { RemembersLast(a, offers, i, n - 1); }
  }

  // However many events are offered, two queued ones of a kind are at least five seconds apart.
  lemma QueuedEventsAreSpaced(a: Audit, offers: seq<Offer>, i: nat, j: nat)
    requires i < j < |offers| && offers[i].event == offers[j].event && Queued(a, offers, i) && Queued(a, offers, j)
    requires forall m, k :: 0 <= m < k < |offers| ==> offers[m].at <= offers[k].at
    ensures offers[j].at - offers[i].at >= 5000
  {
    RemembersLast(a, offers, i, j);
    QueuesIff(a, offers, j);
  }

  lemma {:induction false} LastWasQueued(a: Audit, offers: seq<Offer>, n: nat, event: AuditEvent)
    requires n <= |offers|
    ensures LastAt(Offered(a, offers[..n]), event) == LastAt(a, event)
            || exists i: nat :: i < n && offers[i] == Offer(event, LastAt(Offered(a, offers[..n]), event)) && Queued(a, offers, i)
    decreases n
  {
    if n > 0 {
      QueuesIff(a, offers, n - 1);
      LastWasQueued(a, offers, n - 1, event);
    }
  }

  // And an event is dropped only for one of its kind queued less than five seconds before, or, on a queue
  // that has seen none, in the clock's first five seconds.
  lemma DroppedForARecentOne(offers: seq<Offer>, j: nat)
    requires j < |offers| && !Queued(Audit([], map[]), offers, j)
    ensures offers[j].at < 5000
            || exists i: nat :: i < j && offers[i].event == offers[j].event && Queued(Audit([], map[]), offers, i)
                 && offers[j].at - offers[i].at < 5000
  {
    QueuesIff(Audit([], map[]), offers, j);
    LastWasQueued(Audit([], map[]), offers, j, offers[j].event);
  }
}
