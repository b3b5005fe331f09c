// A gateway method waiting in its gaps is one client of the whole system's runs.
module ClientRuns {
  import opened Types
  import opened ControlLease
  import opened ControlSystem
  import opened RedisServer
  import opened LeaseStore

  // What an action of the system does to Redis and the clock, as one waiting client sees it.
  function EffectOf(s: Sys, a: Action): seq<Interference> {
    match a
    case Tick(d) => [Pass(d)]
    case Advance(k) => if k in s.clients && !s.clients[k].Done? then [Other(s.clients[k])] else []
    case _ => []
  }

  function Effects(s: Sys, acts: seq<Action>, ttl: int): seq<Interference>
    decreases |acts|
  {
    if acts == [] then [] else EffectOf(s, acts[0]) + Effects(Apply(s, acts[0], ttl), acts[1..], ttl)
  }

  lemma {:induction false} EffectsAreTheRun(s: Sys, acts: seq<Action>, ttl: int)
    ensures After(s.st, s.now, Effects(s, acts, ttl), ttl) == (Run(s, acts, ttl).st, Run(s, acts, ttl).now)
    decreases |acts|
  {
    if acts != [] {
      var s1 := Apply(s, acts[0], ttl);
      var first, rest := EffectOf(s, acts[0]), Effects(s1, acts[1..], ttl);
      EffectsAreTheRun(s1, acts[1..], ttl);
      if first == [] { assert first + rest == rest; } else { assert (first + rest)[1..] == rest; }
    }
  }

  // The client itself takes no step during these actions.
  predicate Spares(acts: seq<Action>, c: nat) {
    forall i :: 0 <= i < |acts| ==> acts[i] != Advance(c)
  }

  lemma {:induction false} SparedClientWaits(s: Sys, acts: seq<Action>, c: nat, ttl: int)
    requires Spares(acts, c) && c in s.clients && !s.clients[c].Done?
    ensures c in Run(s, acts, ttl).clients && Run(s, acts, ttl).clients[c] == s.clients[c]
    decreases |acts|
  {
    if acts != [] {
      SparedClientWaits(Apply(s, acts[0], ttl), acts[1..], c, ttl);
    }
  }

  function Head(gaps: seq<seq<Action>>): seq<Action> {
    if gaps == [] then [] else gaps[0]
  }

  function Rest(gaps: seq<seq<Action>>): seq<seq<Action>> {
    if gaps == [] then [] else gaps[1..]
  }

  function StepsOf(s: Sys, c: nat): nat {
    if c in s.clients then StepsLeft(s.clients[c]) else 0
  }

  ghost predicate AllSpare(gaps: seq<seq<Action>>, c: nat) {
    forall i :: 0 <= i < |gaps| ==> Spares(gaps[i], c)
  }

  lemma NextStep(s: Sys, gaps: seq<seq<Action>>, c: nat, ttl: int)
    requires c in s.clients && !s.clients[c].Done? && AllSpare(gaps, c)
    ensures var s1 := Apply(s, Advance(c), ttl);
            c in s1.clients && s1.clients[c] == ClientStep(s.clients[c], s.st, s.now, ttl).0
            && StepsOf(s1, c) < StepsOf(s, c) && AllSpare(Rest(gaps), c)
            && (!s1.clients[c].Done? ==>
                  c in Run(s1, Head(gaps), ttl).clients && Run(s1, Head(gaps), ttl).clients[c] == s1.clients[c])
  {
    var s1 := Apply(s, Advance(c), ttl);
    assert Spares(Head(gaps), c);
    if !s1.clients[c].Done? { SparedClientWaits(s1, Head(gaps), c, ttl); }
  }

  // The client's steps with the rest of the system's actions in its gaps, as one run of the system ...
  function Interleaved(s: Sys, c: nat, gaps: seq<seq<Action>>, ttl: int): seq<Action>
    requires c in s.clients && !s.clients[c].Done? && AllSpare(gaps, c)
    decreases StepsOf(s, c)
  {
    NextStep(s, gaps, c, ttl);
    var s1 := Apply(s, Advance(c), ttl);
    if s1.clients[c].Done? then [Advance(c)]
    else [Advance(c)] + Head(gaps) + Interleaved(Run(s1, Head(gaps), ttl), c, Rest(gaps), ttl)
  }

  // ... and what the client sees of it.
  function Seen(s: Sys, c: nat, gaps: seq<seq<Action>>, ttl: int): seq<seq<Interference>>
    requires c in s.clients && !s.clients[c].Done? && AllSpare(gaps, c)
    decreases StepsOf(s, c)
  {
    NextStep(s, gaps, c, ttl);
    var s1 := Apply(s, Advance(c), ttl);
    if s1.clients[c].Done? then []
    else [Effects(s1, Head(gaps), ttl)] + Seen(Run(s1, Head(gaps), ttl), c, Rest(gaps), ttl)
  }

  // What a gateway method is proved to do, given what it saw in its gaps, is what its client does in
  // that run of the whole system; so the methods inherit every theorem about runs.
  lemma {:induction false} DriveIsARun(s: Sys, c: nat, gaps: seq<seq<Action>>, ttl: int)
    requires c in s.clients && !s.clients[c].Done? && AllSpare(gaps, c)
    ensures var end := Run(s, Interleaved(s, c, gaps, ttl), ttl);
            && c in end.clients && end.clients[c].Done?
            && Drive(s.clients[c], s.st, s.now, Seen(s, c, gaps, ttl), ttl) == (end.st, end.now, end.clients[c].outcome)
    decreases StepsOf(s, c)
  {
    NextStep(s, gaps, c, ttl);
    var s1 := Apply(s, Advance(c), ttl);
    assert Run(s, [Advance(c)], ttl) == Run(s1, [], ttl) == s1;
    if !s1.clients[c].Done? {
      var s2 := Run(s1, Head(gaps), ttl);
      EffectsAreTheRun(s1, Head(gaps), ttl);
      DriveIsARun(s2, c, Rest(gaps), ttl);
      RunConcat(s, [Advance(c)] + Head(gaps), Interleaved(s2, c, Rest(gaps), ttl), ttl);
      RunConcat(s, [Advance(c)], Head(gaps), ttl);
      var seen := Seen(s, c, gaps, ttl);
      assert seen[1..] == Seen(s2, c, Rest(gaps), ttl);
    }
  }

  lemma DropLast<T>(first: seq<T>, rest: seq<T>)
    requires rest != []
    ensures var all := first + rest;
            all[|all| - 1] == rest[|rest| - 1] && all[..|all| - 1] == first + rest[..|rest| - 1]
  {
  }

  // All but the last action of two stretches.
  lemma AllButLast(s: Sys, first: seq<Action>, rest: seq<Action>, ttl: int)
    requires rest != []
    ensures var acts := first + rest;
            && acts[|acts| - 1] == rest[|rest| - 1]
            && Run(s, acts[..|acts| - 1], ttl) == Run(Run(s, first, ttl), rest[..|rest| - 1], ttl)
  {
    DropLast(first, rest);
    RunConcat(s, first, rest[..|rest| - 1], ttl);
  }

  lemma NotYetAnswered(c: Client, st: Store, now: int, gap: seq<Interference>, rest: seq<seq<Interference>>, ttl: int)
    requires !c.Done? && !ClientStep(c, st, now, ttl).0.Done?
    ensures var (c', st') := ClientStep(c, st, now, ttl);
            var (st'', now') := After(st', now, gap, ttl);
            BeforeAnswer(c, st, now, [gap] + rest, ttl) == BeforeAnswer(c', st'', now', rest, ttl)
  {
    assert ([gap] + rest)[1..] == rest;
  }

  // The last of these actions is the client's own, and `met` is the state of the system it meets.
  ghost predicate EndsInStep(s: Sys, c: nat, acts: seq<Action>, met: (Client, Store, int), ttl: int) {
    && acts != [] && acts[|acts| - 1] == Advance(c)
    && var before := Run(s, acts[..|acts| - 1], ttl);
    c in before.clients && met == (before.clients[c], before.st, before.now)
  }

  lemma LaterStep(s: Sys, c: nat, gap: seq<Action>, rest: seq<Action>, met: (Client, Store, int), ttl: int)
    requires EndsInStep(Run(Apply(s, Advance(c), ttl), gap, ttl), c, rest, met, ttl)
    ensures EndsInStep(s, c, [Advance(c)] + gap + rest, met, ttl)
  {
    AllButLast(s, [Advance(c)] + gap, rest, ttl);
    assert ([Advance(c)] + gap)[1..] == gap;
  }

  lemma OnlyStep(s: Sys, c: nat, ttl: int)
    requires c in s.clients
    ensures EndsInStep(s, c, [Advance(c)], (s.clients[c], s.st, s.now), ttl)
  {
    assert [Advance(c)][..0] == [];
  }

  lemma StepBeforeGap(s: Sys, c: nat, gaps: seq<seq<Action>>, ttl: int)
    requires c in s.clients && !s.clients[c].Done? && AllSpare(gaps, c) && !Apply(s, Advance(c), ttl).clients[c].Done?
    requires var s2 := Run(Apply(s, Advance(c), ttl), Head(gaps), ttl);
             && c in s2.clients && !s2.clients[c].Done? && AllSpare(Rest(gaps), c)
             && EndsInStep(s2, c, Interleaved(s2, c, Rest(gaps), ttl),
                           BeforeAnswer(s2.clients[c], s2.st, s2.now, Seen(s2, c, Rest(gaps), ttl), ttl), ttl)
    ensures EndsInStep(s, c, Interleaved(s, c, gaps, ttl),
                       BeforeAnswer(s.clients[c], s.st, s.now, Seen(s, c, gaps, ttl), ttl), ttl)
  {
    NextStep(s, gaps, c, ttl);
    var s1 := Apply(s, Advance(c), ttl);
    var s2 := Run(s1, Head(gaps), ttl);
    var rest, seen := Interleaved(s2, c, Rest(gaps), ttl), Seen(s2, c, Rest(gaps), ttl);
    EffectsAreTheRun(s1, Head(gaps), ttl);
    NotYetAnswered(s.clients[c], s.st, s.now, Effects(s1, Head(gaps), ttl), seen, ttl);
    LaterStep(s, c, Head(gaps), rest, BeforeAnswer(s2.clients[c], s2.st, s2.now, seen, ttl), ttl);
  }

  // The last action of that run is the client's own deciding step, and what `BeforeAnswer` says it meets
  // is the state of the whole system then.
  lemma {:induction false} AnswerIsTheLastAction(s: Sys, c: nat, gaps: seq<seq<Action>>, ttl: int)
    requires c in s.clients && !s.clients[c].Done? && AllSpare(gaps, c)
    ensures EndsInStep(s, c, Interleaved(s, c, gaps, ttl),
                       BeforeAnswer(s.clients[c], s.st, s.now, Seen(s, c, gaps, ttl), ttl), ttl)
    decreases StepsOf(s, c)
  {
    NextStep(s, gaps, c, ttl);
    if Apply(s, Advance(c), ttl).clients[c].Done? {
      OnlyStep(s, c, ttl);
    } else {
      AnswerIsTheLastAction(Run(Apply(s, Advance(c), ttl), Head(gaps), ttl), c, Rest(gaps), ttl);
      StepBeforeGap(s, c, gaps, ttl);
    }
  }
}
