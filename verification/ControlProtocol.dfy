// Control packets, the text that is signed for them, and what they ask of the actuators.
module ControlProtocol {
  import opened Types
  import opened ControlText

  const PROTOCOL_VERSION := 1
  const CONTROL_TYPE := "control"
  const HIGH_LEVEL := "high_level"
  const LOW_LEVEL := "low_level"

  // Numbers of a command are the numerals that str() prints for them; Other is any shape not listed here.
  datatype Command =
    | HighLevel(action: string)
    | LowLevel(steering: string, throttle: string, brake: string, direction: int)
    | Legacy(steering: string, throttle: string, brake: string)
    | Other

  datatype Packet = Packet(
    version: int, kind: string, sessionId: string, sequence: int, timestamp: int, command: Command, signature: string)

  function CommandFields(c: Command): (fields: seq<string>)
    requires !c.Other?
    ensures fields != []
  {
    match c
    case HighLevel(action) => [HIGH_LEVEL, action]
    case LowLevel(steering, throttle, brake, direction) =>
      [LOW_LEVEL, steering, throttle, brake, IntText(direction)]
    case Legacy(steering, throttle, brake) => [steering, throttle, brake]
  }

  function BuildSignMessage(p: Packet): string
    requires !p.command.Other?
  {
    Join([IntText(p.version), p.kind, p.sessionId, IntText(p.sequence), IntText(p.timestamp)] + CommandFields(p.command))
  }

  // The browser's signMessage: one template per mode.
  function SignMessage(p: Packet): string
    requires p.command.HighLevel? || p.command.LowLevel?
  {
    var prefix := IntText(p.version) + "|" + p.kind + "|" + p.sessionId + "|" + IntText(p.sequence) + "|" + IntText(p.timestamp) + "|";
    var c := p.command;
    prefix + if c.HighLevel? then "high_level" + "|" + c.action
             else "low_level" + "|" + c.steering + "|" + c.throttle + "|" + c.brake + "|" + IntText(c.direction)
  }

  lemma JoinLast(fields: seq<string>)
    requires |fields| > 1
    ensures Join(fields) == Join(fields[..|fields| - 1]) + "|" + fields[|fields| - 1]
  {
    JoinConcat(fields[..|fields| - 1], fields[|fields| - 1..]);
    assert fields == fields[..|fields| - 1] + fields[|fields| - 1..];
  }

  lemma JoinFive(a: string, b: string, c: string, d: string, e: string)
    ensures Join([a, b, c, d, e]) == a + "|" + b + "|" + c + "|" + d + "|" + e
  {
    assert [a, b, c, d, e][..4] == [a, b, c, d] && [a, b, c, d][..3] == [a, b, c] && [a, b, c][..2] == [a, b];
    JoinLast([a, b, c, d, e]);
    JoinLast([a, b, c, d]);
    JoinLast([a, b, c]);
    JoinLast([a, b]);
    assert [a, b][..1] == [a];
  }

  // The vehicle rebuilds exactly the text the browser signed.
  lemma BrowserAndVehicleSignTheSameText(p: Packet)
    requires p.command.HighLevel? || p.command.LowLevel?
    ensures BuildSignMessage(p) == SignMessage(p)
  {
    var c := p.command;
    JoinConcat([IntText(p.version), p.kind, p.sessionId, IntText(p.sequence), IntText(p.timestamp)], CommandFields(c));
    JoinFive(IntText(p.version), p.kind, p.sessionId, IntText(p.sequence), IntText(p.timestamp));
    if c.HighLevel? {
      JoinLast([HIGH_LEVEL, c.action]);
    } else {
      JoinFive(LOW_LEVEL, c.steering, c.throttle, c.brake, IntText(c.direction));
    }
  }

  const ACTIONS: set<string> := {"forward", "reverse", "left", "right", "stop", "emergency_stop"}

  // A command in one of the three forms, whatever its numbers.
  predicate WellFormed(c: Command) {
    match c
    case HighLevel(action) => action in ACTIONS
    case LowLevel(steering, throttle, brake, _) => Float(steering).Some? && Float(throttle).Some? && Float(brake).Some?
    case Legacy(steering, throttle, brake) => Float(steering).Some? && Float(throttle).Some? && Float(brake).Some?
    case Other => false
  }

  predicate Within(x: Option<real>, low: real, high: real) {
    x.Some? && low <= x.value <= high
  }

  predicate ValidCommand(c: Command) {
    match c
    case HighLevel(action) => action in ACTIONS
    case LowLevel(steering, throttle, brake, direction) =>
      && Within(Float(steering), -1.0, 1.0) && Within(Float(throttle), 0.0, 1.0) && Within(Float(brake), 0.0, 1.0)
      && direction in {-1, 0, 1}
    case Legacy(steering, throttle, brake) =>
      Within(Float(steering), -1.0, 1.0) && Within(Float(throttle), 0.0, 1.0) && Within(Float(brake), 0.0, 1.0)
    case Other => false
  }

  datatype Actuation = Actuation(steering: real, throttle: real, brake: real, direction: real)

  function ResolveCommand(c: Command): (a: Actuation)
    requires ValidCommand(c)
    ensures -1.0 <= a.steering <= 1.0 && 0.0 <= a.throttle <= 1.0 && 0.0 <= a.brake <= 1.0
    ensures a.direction == -1.0 || a.direction == 0.0 || a.direction == 1.0
  {
    match c
    case HighLevel(action) =>
      if action == "forward" then Actuation(0.0, 1.0, 0.0, 1.0)
      else if action == "reverse" then Actuation(0.0, 1.0, 0.0, -1.0)
      else if action == "left" then Actuation(-1.0, 0.0, 0.0, 1.0)
      else if action == "right" then Actuation(1.0, 0.0, 0.0, 1.0)
      else Actuation(0.0, 0.0, 1.0, 0.0)
    case LowLevel(steering, throttle, brake, direction) =>
      Actuation(Float(steering).value, Float(throttle).value, Float(brake).value, direction as real)
    case Legacy(steering, throttle, brake) =>
      Actuation(Float(steering).value, Float(throttle).value, Float(brake).value, 1.0)
  }

  // The six high-level intents, and what each asks for.
  lemma HighLevelIntents(action: string)
    ensures ValidCommand(HighLevel(action)) <==>
              || action == "forward" || action == "reverse" || action == "left" || action == "right"
              || action == "stop" || action == "emergency_stop"
    ensures ValidCommand(HighLevel(action)) ==>
            var a := ResolveCommand(HighLevel(action));
            && a.steering == (if action == "left" then -1.0 else if action == "right" then 1.0 else 0.0)
            && a.throttle == (if action == "forward" || action == "reverse" then 1.0 else 0.0)
            && a.brake == (if action == "stop" || action == "emergency_stop" then 1.0 else 0.0)
            && a.direction == (if action == "reverse" then -1.0 else if a.brake > 0.0 then 0.0 else 1.0)
  {
  }

  // ---------- the signed text determines the packet ----------

  // Everything a packet says but its signature.
  predicate SameContent(p: Packet, q: Packet) {
    p.(signature := "") == q.(signature := "")
  }

  predicate Signable(p: Packet) {
    p.version == PROTOCOL_VERSION && p.kind == CONTROL_TYPE && WellFormed(p.command)
  }

  function Tail(p: Packet): seq<string>
    requires Signable(p)
  {
    [IntText(p.sequence), IntText(p.timestamp)] + CommandFields(p.command)
  }

  // A field of the tail that is printed or parsed as a number: no separator, and no mode's name.
  predicate Atom(f: string) {
    BAR !in f && f != HIGH_LEVEL && f != LOW_LEVEL
  }

  lemma NumeralCharsMakeAtoms(f: string)
    requires AllNumeral(f)
    ensures Atom(f)
  {
    assert HIGH_LEVEL[0] in HIGH_LEVEL && LOW_LEVEL[0] in LOW_LEVEL;
  }

  lemma IntegerIsAtom(n: int)
    ensures Atom(IntText(n))
  {
    assert forall c :: c in NatText(if n < 0 then -n else n) ==> IsDigit(c);
    NumeralCharsMakeAtoms(IntText(n));
  }

  lemma NumeralIsAtom(f: string)
    requires Float(f).Some?
    ensures Atom(f)
  {
    NumeralsUseNumeralChars(f);
    NumeralCharsMakeAtoms(f);
  }

  lemma ActionHasNoBar(action: string)
    requires action in ACTIONS
    ensures BAR !in action
  {
    assert BAR !in "forward" && BAR !in "reverse" && BAR !in "left" && BAR !in "right";
    assert BAR !in "stop" && BAR !in "emergency_stop";
  }

  lemma NumeralsAreAtoms(steering: string, throttle: string, brake: string)
    requires Float(steering).Some? && Float(throttle).Some? && Float(brake).Some?
    ensures Atom(steering) && Atom(throttle) && Atom(brake)
  {
    NumeralIsAtom(steering);
    NumeralIsAtom(throttle);
    NumeralIsAtom(brake);
  }

  lemma HighLevelAtoms(action: string)
    requires action in ACTIONS
    ensures forall f :: f in [HIGH_LEVEL, action] ==> BAR !in f
  {
    ActionHasNoBar(action);
  }

  lemma LowLevelAtoms(a: string, b: string, c: string, d: string)
    requires Atom(a) && Atom(b) && Atom(c) && Atom(d)
    ensures forall f :: f in [LOW_LEVEL, a, b, c, d] ==> BAR !in f
    ensures forall f :: f in [a, b, c] ==> BAR !in f
  {
  }

  lemma CommandFieldsAreAtoms(c: Command)
    requires WellFormed(c)
    ensures forall f :: f in CommandFields(c) ==> BAR !in f
    ensures c.LowLevel? || c.Legacy? ==> Atom(c.steering) && Atom(c.throttle) && Atom(c.brake)
  {
    if c.HighLevel? {
      HighLevelAtoms(c.action);
    } else {
      NumeralsAreAtoms(c.steering, c.throttle, c.brake);
      var d := if c.LowLevel? then c.direction else 0;
      IntegerIsAtom(d);
      LowLevelAtoms(c.steering, c.throttle, c.brake, IntText(d));
    }
  }

  lemma TailFieldsAreAtoms(p: Packet)
    requires Signable(p)
    ensures forall f :: f in Tail(p) ==> BAR !in f
  {
    IntegerIsAtom(p.sequence);
    IntegerIsAtom(p.timestamp);
    CommandFieldsAreAtoms(p.command);
  }

  lemma RegroupFields(a: string, b: string, c: string, d: string, e: string, f: seq<string>)
    ensures [a, b, c, d, e] + f == [a, b] + ([c] + ([d, e] + f))
  {
  }

  lemma SplitThree(head: seq<string>, middle: string, tail: seq<string>)
    requires head != [] && tail != []
    requires (forall f :: f in head ==> BAR !in f) && (forall f :: f in tail ==> BAR !in f)
    ensures Split(Join(head + ([middle] + tail))) == head + Split(middle) + tail
  {
    SplitTwo(middle, tail);
    SplitHead(head, [middle] + tail);
    assert head + (Split(middle) + tail) == head + Split(middle) + tail;
  }

  // What follows fields without separators may hold any number of them.
  lemma SplitHead(head: seq<string>, rest: seq<string>)
    requires head != [] && rest != [] && forall f :: f in head ==> BAR !in f
    ensures Split(Join(head + rest)) == head + Split(Join(rest))
  {
    JoinConcat(head, rest);
    SplitConcat(Join(head), Join(rest));
    SplitJoin(head);
  }

  lemma SplitTwo(middle: string, tail: seq<string>)
    requires tail != [] && forall f :: f in tail ==> BAR !in f
    ensures Split(Join([middle] + tail)) == Split(middle) + tail
  {
    JoinConcat([middle], tail);
    SplitConcat(middle, Join(tail));
    SplitJoin(tail);
  }

  lemma MessageShape(p: Packet)
    requires Signable(p)
    ensures BuildSignMessage(p) == Join(["1", CONTROL_TYPE] + ([p.sessionId] + Tail(p)))
  {
    RegroupFields(IntText(1), CONTROL_TYPE, p.sessionId, IntText(p.sequence), IntText(p.timestamp), CommandFields(p.command));
    assert IntText(1) == NatText(1) == [DigitChar(1)] == "1";
  }

  // Whatever separators a session id holds, the signed text splits into the fixed head, the id's
  // own parts, and the fields after it.
  lemma SplitSignMessage(p: Packet)
    requires Signable(p)
    ensures Split(BuildSignMessage(p)) == ["1", CONTROL_TYPE] + Split(p.sessionId) + Tail(p)
  {
    MessageShape(p);
    TailFieldsAreAtoms(p);
    HeadFieldsAreAtoms();
    SplitThree(["1", CONTROL_TYPE], p.sessionId, Tail(p));
  }

  lemma HeadFieldsAreAtoms()
    ensures forall f :: f in ["1", CONTROL_TYPE] ==> BAR !in f
  {
  }

  // The tails of two packets with the same text have the same form.
  lemma SameForm(p: Packet, q: Packet, s: seq<string>, t: seq<string>)
    requires Signable(p) && Signable(q) && s + Tail(p) == t + Tail(q)
    ensures |Tail(p)| == |Tail(q)|
  {
    var f := s + Tail(p);
    var n := |f|;
    if p.command.HighLevel? || q.command.HighLevel? {
      HighLevelMark(p);
      HighLevelMark(q);
      assert Tail(p)[|Tail(p)| - 2] == f[n - 2] == Tail(q)[|Tail(q)| - 2];
    } else {
      LowLevelMark(p);
      LowLevelMark(q);
      assert Tail(p)[|Tail(p)| - 5] == f[n - 5] == Tail(q)[|Tail(q)| - 5];
    }
  }

  lemma HighLevelMark(p: Packet)
    requires Signable(p)
    ensures Tail(p)[|Tail(p)| - 2] == HIGH_LEVEL <==> p.command.HighLevel?
  {
    CommandFieldsAreAtoms(p.command);
  }

  lemma LowLevelMark(p: Packet)
    requires Signable(p) && !p.command.HighLevel?
    ensures Tail(p)[|Tail(p)| - 5] == LOW_LEVEL <==> p.command.LowLevel?
  {
    IntegerIsAtom(p.sequence);
  }

  lemma TailIsInjective(p: Packet, q: Packet)
    requires Signable(p) && Signable(q) && Tail(p) == Tail(q)
    ensures p.sequence == q.sequence && p.timestamp == q.timestamp && p.command == q.command
  {
    assert Tail(p)[0] == Tail(q)[0] && Tail(p)[1] == Tail(q)[1];
    IntTextIsInjective(p.sequence, q.sequence);
    IntTextIsInjective(p.timestamp, q.timestamp);
    var c, d := Tail(p)[2..], Tail(q)[2..];
    assert c == CommandFields(p.command) && d == CommandFields(q.command);
    if p.command.LowLevel? && q.command.LowLevel? {
      assert c[4] == d[4];
      IntTextIsInjective(p.command.direction, q.command.direction);
    }
  }

  // Two packets with the same signed text are the same packet, in range or not, in whichever
  // of the three command forms and for whatever session ids.
  lemma SignedTextIsInjective(p: Packet, q: Packet)
    requires Signable(p) && Signable(q) && BuildSignMessage(p) == BuildSignMessage(q)
    ensures SameContent(p, q)
  {
    var head := ["1", CONTROL_TYPE];
    SplitSignMessage(p);
    SplitSignMessage(q);
    var s, t := head + Split(p.sessionId), head + Split(q.sessionId);
    SameForm(p, q, s, t);
    var f := s + Tail(p);
    assert s == f[..|f| - |Tail(p)|] == t;
    assert Tail(p) == f[|s|..] == Tail(q);
    TailIsInjective(p, q);
    assert Split(p.sessionId) == s[2..] == t[2..] == Split(q.sessionId);
    JoinSplit(p.sessionId);
    JoinSplit(q.sessionId);
  }

  // The last fields of a text, counted from its end, say what the actuation is: its steering, throttle,
  // brake and direction are the numbers that stand there. The legacy form has no direction and drives
  // forward; a high-level intent stands there by its name.
  predicate Says(f: seq<string>, c: Command, a: Actuation) {
    match c
    case HighLevel(action) => |f| >= 2 && FromEnd(f, 2) == HIGH_LEVEL && FromEnd(f, 1) == action
    case LowLevel(_, _, _, _) =>
      && |f| >= 5 && FromEnd(f, 5) == LOW_LEVEL
      && Float(FromEnd(f, 4)) == Some(a.steering) && Float(FromEnd(f, 3)) == Some(a.throttle)
      && Float(FromEnd(f, 2)) == Some(a.brake) && Float(FromEnd(f, 1)) == Some(a.direction)
    case Legacy(_, _, _) =>
      && |f| >= 3
      && Float(FromEnd(f, 3)) == Some(a.steering) && Float(FromEnd(f, 2)) == Some(a.throttle)
      && Float(FromEnd(f, 1)) == Some(a.brake) && a.direction == 1.0
    case Other => false
  }

  function FromEnd(f: seq<string>, k: nat): string
    requires 1 <= k <= |f|
  {
    f[|f| - k]
  }

  lemma FromEndAfter(head: seq<string>, f: seq<string>, k: nat)
    requires 1 <= k <= |f|
    ensures FromEnd(head + f, k) == FromEnd(f, k)
  {
  }

  lemma SaysAtTheEnd(head: seq<string>, f: seq<string>, c: Command, a: Actuation)
    requires Says(f, c, a)
    ensures Says(head + f, c, a)
  {
    forall k | 1 <= k <= |f| ensures FromEnd(head + f, k) == FromEnd(f, k) { FromEndAfter(head, f, k); }
  }

  lemma LowLevelSays(steering: string, throttle: string, brake: string, direction: string, c: Command, a: Actuation)
    requires c.LowLevel? && Float(direction) == Some(a.direction)
    requires Float(steering) == Some(a.steering) && Float(throttle) == Some(a.throttle) && Float(brake) == Some(a.brake)
    ensures Says([LOW_LEVEL, steering, throttle, brake, direction], c, a)
  {
  }

  // A low-level or legacy command resolves to the numbers in its own fields.
  lemma ResolvesToItsFields(c: Command)
    requires ValidCommand(c)
    ensures var a := ResolveCommand(c);
            c.LowLevel? || c.Legacy? ==>
              && Float(c.steering) == Some(a.steering) && Float(c.throttle) == Some(a.throttle) && Float(c.brake) == Some(a.brake)
              && a.direction == if c.LowLevel? then c.direction as real else 1.0
  {
  }

  lemma FieldsSay(c: Command)
    requires ValidCommand(c)
    ensures Says(CommandFields(c), c, ResolveCommand(c))
  {
    ResolvesToItsFields(c);
    if c.LowLevel? {
      FloatOfInteger(c.direction);
      LowLevelSays(c.steering, c.throttle, c.brake, IntText(c.direction), c, ResolveCommand(c));
    }
  }

  // What the vehicle does is what the signed text says.
  lemma ActuationIsSigned(p: Packet)
    requires Signable(p) && ValidCommand(p.command)
    ensures Says(Split(BuildSignMessage(p)), p.command, ResolveCommand(p.command))
  {
    SplitSignMessage(p);
    var head := ["1", CONTROL_TYPE] + Split(p.sessionId) + [IntText(p.sequence), IntText(p.timestamp)];
    assert Split(BuildSignMessage(p)) == head + CommandFields(p.command);
    FieldsSay(p.command);
    SaysAtTheEnd(head, CommandFields(p.command), p.command, ResolveCommand(p.command));
  }

  predicate InRange(a: Actuation) {
    && -1.0 <= a.steering <= 1.0 && 0.0 <= a.throttle <= 1.0 && 0.0 <= a.brake <= 1.0
    && (a.direction == -1.0 || a.direction == 0.0 || a.direction == 1.0)
  }

  lemma SaysOfFieldsAlone(head: seq<string>, c: Command, a: Actuation)
    requires WellFormed(c)
    ensures Says(head + CommandFields(c), c, a) <==> Says(CommandFields(c), c, a)
  {
    var f := CommandFields(c);
    forall k | 1 <= k <= |f| ensures FromEnd(head + f, k) == FromEnd(f, k) { FromEndAfter(head, f, k); }
  }

  lemma FieldsInRange(c: Command, a: Actuation)
    requires WellFormed(c) && Says(CommandFields(c), c, a) && InRange(a)
    ensures ValidCommand(c)
  {
    if c.LowLevel? { FloatOfInteger(c.direction); }
  }

  // Of the packets in one of the three forms the vehicle's check passes exactly those whose signed text
  // says values in range.
  lemma ValidIffTextInRange(p: Packet)
    requires Signable(p)
    ensures ValidCommand(p.command) <==> exists a :: Says(Split(BuildSignMessage(p)), p.command, a) && InRange(a)
  {
    var c := p.command;
    var head := ["1", CONTROL_TYPE] + Split(p.sessionId) + [IntText(p.sequence), IntText(p.timestamp)];
    SplitSignMessage(p);
    assert Split(BuildSignMessage(p)) == head + CommandFields(c);
    if ValidCommand(c) {
      ActuationIsSigned(p);
      assert InRange(ResolveCommand(c));
    }
    if a :| Says(head + CommandFields(c), c, a) && InRange(a) {
      SaysOfFieldsAlone(head, c, a);
      FieldsInRange(c, a);
    }
  }
}
