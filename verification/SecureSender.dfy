// The browser's command sender as an object.
module SecureSender {
  import opened Types
  import opened ControlProtocol
  import opened VehicleNode

  // A granted acquire: the session's id and the renewal period.
  datatype Grant = Grant(id: string, renewAfterMs: int)

  // The book of a key, and the number its last packet carried at most.
  ghost predicate Counts(book: seq<Packet>, sequence: nat) {
    BookOk(book) && (book != [] ==> book[|book| - 1].sequence <= sequence)
  }

  function NextPacket(sessionId: string, sequence: nat, now: int, command: Command, signature: string): Packet {
    Packet(PROTOCOL_VERSION, CONTROL_TYPE, sessionId, sequence, now, command, signature)
  }

  // The next packet a sender signs follows its book, which goes on counting.
  lemma NextCounts(book: seq<Packet>, sequence: nat, p: Packet)
    ensures Counts(book, sequence) && Signable(p) && p.sequence == sequence + 1
            && (book != [] ==> book[|book| - 1].timestamp <= p.timestamp)
            ==> Follows(book, p) && Counts(book + [p], sequence + 1)
  {
    if Counts(book, sequence) && Follows(book, p) { SendKeepsBook(book, p); }
  }

  lemma NextIsSignable(sessionId: string, sequence: nat, now: int, command: Command, signature: string)
    ensures WellFormed(command) ==> Signable(NextPacket(sessionId, sequence, now, command, signature))
  {
  }

  class SecureControlSender {
    var hasKey: bool
    var publishes: bool
    var sessionId: Option<string>
    var sequence: nat
    var renewAfter: int
    var renewTimer: Option<int>  // its period while it runs
    ghost var book: seq<Packet>  // everything signed with the key in use

    ghost predicate Valid()
      reads this
    {
      Counts(book, sequence)
    }

    constructor ()
      ensures Valid() && !hasKey && !publishes && sessionId == None && book == [] && renewTimer == None
    {
      hasKey, publishes := false, false;
      sessionId, sequence, renewAfter, renewTimer, book := None, 0, 0, None, [];
    }

    // A new key has signed nothing yet; the counter goes on.
    method CreateKeyPair()
      requires Valid()
      modifies this`hasKey, this`book
      ensures Valid() && hasKey && book == []
    {
      hasKey, book := true, [];
    }

    // A refused acquire throws and leaves everything as it is. The counter is never reset: it keeps rising
    // across the sessions of one page.
    method AcquireSession(response: Option<Grant>) returns (ok: bool)
      requires Valid()
      modifies this`sessionId, this`renewAfter
      ensures Valid() && ok == response.Some?
      ensures if ok then sessionId == Some(response.value.id) && renewAfter == response.value.renewAfterMs
              else sessionId == old(sessionId) && renewAfter == old(renewAfter)
    {
      if response.None? {
        return false;
      }
      sessionId := Some(response.value.id);
      renewAfter := response.value.renewAfterMs;
      ok := true;
    }

    method SetPublishData()
      requires Valid()
      modifies this`publishes
      ensures Valid() && publishes
    {
      publishes := true;
    }

    // A running timer is replaced by one with the period of the latest grant.
    method StartRenewal()
      requires Valid()
      modifies this`renewTimer
      ensures Valid() && renewTimer == Some(renewAfter)
    {
      StopRenewal();
      renewTimer := Some(renewAfter);
    }

    method StopRenewal()
      requires Valid()
      modifies this`renewTimer
      ensures Valid() && renewTimer == None
    {
      renewTimer := None;
    }

    // What a tick of the timer asks the gateway to renew: once released, nothing.
    method Renew() returns (asked: Option<string>)
      requires Valid()
      ensures asked == sessionId
    {
      asked := sessionId;
    }

    method Release() returns (asked: Option<string>)
      requires Valid()
      modifies this`renewTimer, this`sessionId
      ensures Valid() && sessionId == None && renewTimer == None && asked == old(sessionId)
    {
      StopRenewal();
      asked := sessionId;
      sessionId := None;
    }

    // Every signed command, in range for the vehicle or not, extends the book as the vehicle's replay
    // protection assumes. Without a key, a session or a way to publish it throws, before it counts.
    method SendCommand(command: Command, now: int, signature: string) returns (p: Option<Packet>)
      requires Valid() && WellFormed(command) && !command.Legacy?
      requires book != [] ==> book[|book| - 1].timestamp <= now
      modifies this`sequence, this`book
      ensures Valid()
      ensures p.None? <==> !hasKey || sessionId == None || !publishes
      ensures p.None? ==> book == old(book) && sequence == old(sequence)
      ensures p.Some? ==>
                && Follows(old(book), p.value) && book == old(book) + [p.value]
                && sequence == old(sequence) + 1 == p.value.sequence
                && p.value.sessionId == sessionId.value && p.value.timestamp == now && p.value.command == command
    {
      if !hasKey || sessionId.None? || !publishes {
        return None;
      }
      var packet := NextPacket(sessionId.value, sequence + 1, now, command, signature);
      NextIsSignable(sessionId.value, sequence + 1, now, command, signature);
      NextCounts(book, sequence, packet);
      sequence := sequence + 1;
      book := book + [packet];
      p := Some(packet);
    }
  }
}
