// What the loss count means over a vehicle's whole run, with several sessions one after the other.
module SessionLosses {
  import opened Types
  import opened VehicleNode
  import opened ReplaySafety
  import T = Telemetry
  import E = EndToEnd
  import P = PromptRenewal
  import X = EdgeRuns

  function Numbers(log: seq<Accept>): (s: seq<int>)
    ensures |s| == |log| && forall i :: 0 <= i < |log| ==> s[i] == log[i].packet.sequence
  {
    if log == [] then [] else Numbers(log[..|log| - 1]) + [log[|log| - 1].packet.sequence]
  }

  predicate SameSession(a: Accept, b: Accept) {
    a.packet.sessionId == b.packet.sessionId
  }

  // The numbers missing between consecutive commands of one session.
  function Missing(log: seq<Accept>): nat {
    var n := |log|;
    if n < 2 then 0
    else Missing(log[..n - 1])
         + if SameSession(log[n - 2], log[n - 1]) then T.Jump(log[n - 2].packet.sequence, log[n - 1].packet.sequence) else 0
  }

  // What is counted at handovers: the new session's first number against the old session's last.
  function AtHandovers(log: seq<Accept>): nat {
    var n := |log|;
    if n < 2 then 0
    else AtHandovers(log[..n - 1])
         + if SameSession(log[n - 2], log[n - 1]) then 0 else T.Jump(log[n - 2].packet.sequence, log[n - 1].packet.sequence)
  }

  // No session starts more than one above the number the previous one ended with.
  ghost predicate HandoversDoNotJump(log: seq<Accept>) {
    forall k :: 0 < k < |log| && !SameSession(log[k - 1], log[k]) ==> log[k].packet.sequence <= log[k - 1].packet.sequence + 1
  }

  lemma {:induction false} JumpsSplit(log: seq<Accept>)
    ensures T.Jumps(Numbers(log)) == Missing(log) + AtHandovers(log)
    ensures AtHandovers(log) == 0 <==> HandoversDoNotJump(log)
    decreases |log|
  {
    if |log| >= 2 {
      var n := |log|;
      var before := log[..n - 1];
      assert Numbers(log)[..n - 1] == Numbers(before);
      JumpsSplit(before);
      if HandoversDoNotJump(before) {
        assert HandoversDoNotJump(log) <==> SameSession(log[n - 2], log[n - 1]) || log[n - 1].packet.sequence <= log[n - 2].packet.sequence + 1;
      } else {
        var k :| 0 < k < n - 1 && !SameSession(before[k - 1], before[k]) && before[k].packet.sequence > before[k - 1].packet.sequence + 1;
        assert !SameSession(log[k - 1], log[k]);
      }
    }
  }

  // Over one session's block of the log, exactly the numbers that were not accepted are missing.
  lemma {:induction false} BlockMisses(log: seq<Accept>, i: nat, j: nat)
    requires Ordered(log) && i <= j < |log| && forall k :: i <= k <= j ==> SameSession(log[i], log[k])
    ensures Missing(log[..j + 1]) - Missing(log[..i + 1]) == (log[j].packet.sequence - log[i].packet.sequence + 1) - (j - i + 1)
    decreases j
  {
    if i < j {
      BlockMisses(log, i, j - 1);
      assert log[..j + 1][..j] == log[..j];
      assert SameSession(log[j - 1], log[j]);
    }
  }

  // Each session's commands stand together.
  ghost predicate InBlocks(log: seq<Accept>) {
    forall i, k, j :: 0 <= i < k < j < |log| && SameSession(log[i], log[j]) ==> SameSession(log[i], log[k])
  }

  ghost predicate MissesExactly(log: seq<Accept>, i: nat, j: nat)
    requires i <= j < |log|
  {
    Missing(log[..j + 1]) - Missing(log[..i + 1]) == (log[j].packet.sequence - log[i].packet.sequence + 1) - (j - i + 1)
  }

  lemma LogsComeInBlocks(start: int, acts: seq<E.Action>, c: Config, ttl: int, log: seq<Accept>)
    requires ttl > 0 && log == E.Run(E.Start(start, c), acts, c, ttl).n.log
    ensures InBlocks(log)
  {
    EntriesNameTheirSession(start, acts, c, ttl, log);
    forall i, k, j | 0 <= i < k < j < |log| && SameSession(log[i], log[j]) ensures SameSession(log[i], log[k]) {
      E.HandoverIsOneWay(start, acts, c, ttl, i, k, j);
    }
  }

  lemma NamedInLog(n: Node, c: Config)
    requires LogOk(n, c)
    ensures forall k :: 0 <= k < |n.log| ==> n.log[k].packet.sessionId == n.log[k].session.sessionId
  {
    forall k | 0 <= k < |n.log| ensures n.log[k].packet.sessionId == n.log[k].session.sessionId {
      assert EntryOk(n, n.log[k], c);
    }
  }

  lemma EntriesNameTheirSession(start: int, acts: seq<E.Action>, c: Config, ttl: int, log: seq<Accept>)
    requires log == E.Run(E.Start(start, c), acts, c, ttl).n.log
    ensures forall k :: 0 <= k < |log| ==> log[k].packet.sessionId == log[k].session.sessionId
  {
    var vehicle := E.AllVehicleActs(E.Start(start, c), acts, c, ttl);
    E.WorldRunsAreVehicleRuns(E.Start(start, c), acts, c, ttl);
    RunKeepsLog(Start(start - c.behind), vehicle, c);
    NamedInLog(Run(Start(start - c.behind), vehicle, c), c);
  }

  // Whatever the vehicle accepted, and with any reports in between: what is reported or still to be
  // reported as lost is what the sessions miss, plus the jumps at handovers, where the vehicle keeps the
  // old session's number. It is exact if and only if no handover jumps.
  lemma ReportsAreJumps(log: seq<Accept>, evs: seq<T.Event>)
    requires T.Sequences(evs) == Numbers(log)
    ensures var m := T.Count(T.Meter(0, None, 0), evs);
            && m.lost + m.reported == Missing(log) + AtHandovers(log)
            && (m.lost + m.reported == Missing(log) <==> HandoversDoNotJump(log))
  {
    T.NothingIsMiscounted(evs);
    JumpsSplit(log);
  }

  lemma BlocksMissExactly(log: seq<Accept>)
    requires Ordered(log) && InBlocks(log)
    ensures forall i: nat, j: nat :: i <= j < |log| && SameSession(log[i], log[j]) ==> MissesExactly(log, i, j)
  {
    forall i: nat, j: nat | i <= j < |log| && SameSession(log[i], log[j]) ensures MissesExactly(log, i, j) {
      BlockMisses(log, i, j);
    }
  }

  // Over a whole run of vehicle and gateways that accepts in order, as every run with timely renewals
  // does: what the sessions miss is, for each one's block, exactly its numbers that were not accepted.
  lemma RunMissesExactly(start: int, acts: seq<E.Action>, c: Config, ttl: int, log: seq<Accept>)
    requires ttl > 0 && log == E.Run(E.Start(start, c), acts, c, ttl).n.log
    requires Ordered(log) || (P.TimelyRun(E.Start(start, c), acts, c, ttl) && c.interval > c.limits.maxAge + c.limits.maxSkew)
    ensures forall i: nat, j: nat :: i <= j < |log| && SameSession(log[i], log[j]) ==> MissesExactly(log, i, j)
  {
    if !Ordered(log) { P.TimelyRenewalNeedsNoGap(start, acts, c, ttl); }
    LogsComeInBlocks(start, acts, c, ttl, log);
    BlocksMissExactly(log);
  }

  // A run in which nothing is missing and any number of losses is reported: Ann's command 1 is accepted,
  // Bob takes over, and his first command carries a larger number.
  lemma HandoverJumpIsCounted(c: Config, ttl: int, k: int) returns (acts: seq<E.Action>, evs: seq<T.Event>)
    requires c.behind == 0 && c.checkGap >= 1 && ttl > 0 && ttl >= c.interval && k >= 3
    ensures var log, m := E.Run(E.Start(0, c), acts, c, ttl).n.log, T.Count(T.Meter(0, None, 0), evs);
            && T.Sequences(evs) == Numbers(log) && !HandoversDoNotJump(log)
            && Missing(log) == 0 && m.lost == k - 2
  {
    acts := X.HandoverJumps(c, ttl, k);
    var log := E.Run(E.Start(0, c), acts, c, ttl).n.log;
    evs := [T.Got(1), T.Got(k)];
    assert evs[..1] == [T.Got(1)] && evs[..1][..0] == [] && Numbers(log) == [1, k];
    assert T.Sequences(evs[..1]) == [] + [1] && T.Count(T.Meter(0, None, 0), evs[..1]) == T.Meter(0, Some(1), 0);
    assert !SameSession(log[1 - 1], log[1]) && Missing(log[..1]) == 0;
  }
}
