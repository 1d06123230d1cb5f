/** The telnet session tracker (`TelnetServer`): one listener, at most one
    client, and an opaque connection handler that receives START, CHECK and
    STOP.  The handler calls are recorded, in order, in an event log.  What
    the sockets report during one poll (a pending connection, whether
    accepting it worked, whether the current client is still connected) is
    an input of that poll. */
module Telnet {

  datatype Event = START | CHECK | STOP

  /** The socket facts seen by one `check()`: whether the current client is
      still connected, `hasClient()`, whether `available()` returned a live
      client, and that client's address. */
  datatype Poll = Poll(alive: bool, pending: bool, acceptOk: bool, remoteIp: nat)

  /** `m_client` (as a boolean: a live client), `m_client_connected`,
      `m_client_ip`, and the handler calls so far. */
  datatype Session = Session(client: bool, connected: bool, ip: nat, events: seq<Event>)

  const Idle: Session := Session(false, false, 0, [])

  /** `stop_client()`: close the client if any; if a session was open, mark it
      closed and send STOP. */
  function StopClientStep(s: Session): Session {
    var closed := s.(client := false);
    if !closed.connected then closed
    else closed.(connected := false, events := closed.events + [STOP])
  }

  /** The last line of `check_client()`: a session whose client is gone is closed. */
  function StopIfLost(s: Session): Session {
    if !s.client && s.connected then StopClientStep(s) else s
  }

  /** `check_client()`. */
  function CheckClientStep(s: Session, p: Poll): Session {
    if p.pending && s.client then StopIfLost(s)       // a second client: accepted and closed at once
    else if p.pending && !p.acceptOk then s.(client := false)   // failed accept: return early
    else if p.pending then StopIfLost(s.(client := true, connected := true, ip := p.remoteIp, events := s.events + [START]))
    else StopIfLost(s)
  }

  /** `check_data()`. */
  function CheckDataStep(s: Session): Session {
    if s.client then s.(events := s.events + [CHECK]) else s
  }

  /** The transport's report, at the start of a poll, that the client went away. */
  function Observe(s: Session, alive: bool): Session {
    s.(client := s.client && alive)
  }

  /** `check()`: `check_client()` then `check_data()`. */
  function CheckStep(s: Session, p: Poll): Session {
    CheckDataStep(CheckClientStep(Observe(s, p.alive), p))
  }

  class TelnetServer {
    const port: int
    const name: string
    var listening: bool
    var client: bool
    var clientConnected: bool
    var clientIp: nat
    var events: seq<Event>

    function State(): Session
      reads this
    {
      Session(client, clientConnected, clientIp, events)
    }

    constructor (port: int, name: string)
      ensures this.port == port && this.name == name
      ensures State() == Idle && !listening
    {
      this.port := port;
      this.name := name;
      listening := false;
      client := false;
      clientConnected := false;
      clientIp := 0;
      events := [];
    }

    method Start()
      modifies this
      ensures listening && State() == old(State())
    {
      listening := true;
    }

    /** `stop()`: the client is closed (STOP if a session was open) before the
        listener ends. */
    method Stop()
      modifies this
      ensures !listening && State() == StopClientStep(old(State()))
    {
      StopClient();
      listening := false;
    }

    method StopClient()
      modifies this
      ensures listening == old(listening)
      ensures State() == StopClientStep(old(State()))
    {
      if client {
        client := false;
      }
      if !clientConnected {
        return;
      }
      clientConnected := false;
      events := events + [STOP];
    }

    method CheckClient(p: Poll)
      modifies this
      ensures listening == old(listening)
      ensures State() == CheckClientStep(old(State()), p)
    {
      if p.pending {
        if client {
          // the new connection is accepted and closed straight away
        } else {
          client := p.acceptOk;
          if !client {
            return;
          }
          clientConnected := true;
          clientIp := p.remoteIp;
          events := events + [START];
        }
      }
      if !client && clientConnected {
        StopClient();
      }
    }

    method CheckData()
      modifies this
      ensures listening == old(listening)
      ensures State() == CheckDataStep(old(State()))
    {
      if client {
        events := events + [CHECK];
      }
    }

    method Check(p: Poll)
      modifies this
      ensures listening == old(listening)
      ensures State() == CheckStep(old(State()), p)
    {
      client := client && p.alive;
      CheckClient(p);
      CheckData();
    }
  }

  // ---------------------------------------------------------------------------
  // The handler contract
  // ---------------------------------------------------------------------------

  /** A session is open after a START that no STOP has followed. */
  function Open(log: seq<Event>): bool
    decreases |log|
  {
    if log == [] then false
    else if log[|log| - 1] == START then true
    else if log[|log| - 1] == STOP then false
    else Open(log[..|log| - 1])
  }

  /** The order the handler sees: CHECK and STOP only inside an open session,
      and STOP closes it (so it comes at most once per session). */
  predicate WellFormed(log: seq<Event>)
    decreases |log|
  {
    log == [] ||
    (WellFormed(log[..|log| - 1]) && (log[|log| - 1] != START ==> Open(log[..|log| - 1])))
  }

  /** The tracker's invariant: the log is well formed, the connected flag says
      whether a session is open, and a live client always has one. */
  predicate Inv(s: Session) {
    WellFormed(s.events) && (s.connected <==> Open(s.events)) && (s.client ==> s.connected)
  }

  lemma Extend(log: seq<Event>, e: Event)
    ensures (log + [e])[..|log|] == log && (log + [e])[|log|] == e
    ensures Open(log + [e]) == (e == START || (e == CHECK && Open(log)))
    ensures WellFormed(log + [e]) == (WellFormed(log) && (e != START ==> Open(log)))
  {
    assert (log + [e])[..|log|] == log;
  }

  lemma StopClientInv(s: Session)
    requires Inv(s)
    ensures Inv(StopClientStep(s))
  {
    Extend(s.events, STOP);
  }

  /** Every operation of the tracker keeps the invariant, from the idle state
      onwards; hence START precedes every CHECK of a session, and STOP comes
      at most once per session however often `stop_client` runs. */
  lemma CheckInv(s: Session, p: Poll)
    requires Inv(s)
    ensures Inv(Observe(s, p.alive))
    ensures Inv(CheckClientStep(Observe(s, p.alive), p))
    ensures Inv(CheckStep(s, p))
    ensures Inv(StopClientStep(s))
    ensures Inv(Idle)
  {
    var o := Observe(s, p.alive);
    StopClientInv(s);
    StopClientInv(o);
    Extend(o.events, START);
    var accepted := o.(client := true, connected := true, ip := p.remoteIp, events := o.events + [START]);
    assert Inv(accepted);
    var c := CheckClientStep(o, p);
    assert Inv(c);
    Extend(c.events, CHECK);
  }

  /** `stop_client` sends STOP exactly when a session was open and closes it,
      so a second call sends nothing. */
  lemma StopOnce(s: Session)
    ensures StopClientStep(s).events == s.events + (if s.connected then [STOP] else [])
    ensures !StopClientStep(s).client && !StopClientStep(s).connected
    ensures StopClientStep(StopClientStep(s)) == StopClientStep(s)
  {
  }

  /** A pending connection while a client is live is accepted and closed:
      no handler call, and the client, flag and address stay as they were. */
  lemma RejectSecondClient(s: Session, p: Poll)
    requires s.client && p.pending
    ensures CheckClientStep(s, p) == s
  {
  }

  /** Accepting sends START and marks the session open; the same poll then
      sends CHECK, so START comes first. */
  lemma AcceptThenCheck(s: Session, p: Poll)
    requires !(s.client && p.alive) && p.pending && p.acceptOk
    ensures var c := CheckClientStep(Observe(s, p.alive), p);
      c.client && c.connected && c.ip == p.remoteIp && c.events == s.events + [START]
    ensures CheckStep(s, p).events == s.events + [START, CHECK]
  {
  }

  /** A failed accept sends nothing and returns before the loss check, so a
      session whose client has gone is not closed in that poll. */
  lemma FailedAcceptSilent(s: Session, p: Poll)
    requires !s.client && p.pending && !p.acceptOk
    ensures CheckClientStep(s, p) == s
    ensures CheckStep(s, p.(alive := false)) == s
  {
  }

  /** A client that went away ends its session with STOP in a poll with no
      pending connection, and there is no CHECK. */
  lemma LostClientStops(s: Session, p: Poll)
    requires s.connected && !p.alive && !p.pending
    ensures CheckStep(s, p).events == s.events + [STOP]
    ensures !CheckStep(s, p).connected && !CheckStep(s, p).client
  {
  }

  /** When the old client went away and a new one is accepted in the same
      poll, the new session starts with no STOP for the old one. */
  lemma ReplacedWithoutStop(s: Session, p: Poll)
    requires s.connected && !p.alive && p.pending && p.acceptOk
    ensures CheckStep(s, p).events == s.events + [START, CHECK]
  {
  }

  /** Each `check()` sends exactly one CHECK when a client is live after
      `check_client`, and none otherwise. */
  lemma OneCheckPerPoll(s: Session, p: Poll)
    ensures var c := CheckClientStep(Observe(s, p.alive), p);
      CheckStep(s, p).events == c.events + (if c.client then [CHECK] else [])
  {
  }

  /** In a well-formed log two STOPs always have a START between them. */
  lemma {:induction false} StopsSeparated(log: seq<Event>, i: nat, j: nat)
    requires WellFormed(log) && i < j < |log| && log[i] == STOP && log[j] == STOP
    ensures exists k :: i < k < j && log[k] == START
    decreases |log|
  {
    var init := log[..|log| - 1];
    if j < |log| - 1 {
      StopsSeparated(init, i, j);
      var k :| i < k < j && init[k] == START;
      assert log[k] == START;
    } else {
      assert Open(init);
      OpenHasStart(init, i);
      var k :| i < k < |init| && init[k] == START;
      assert log[k] == START;
    }
  }

  /** An open session began with a START after any earlier STOP. */
  lemma {:induction false} OpenHasStart(log: seq<Event>, i: nat)
    requires Open(log) && i < |log| && log[i] == STOP
    ensures exists k :: i < k < |log| && log[k] == START
    decreases |log|
  {
    var last := log[|log| - 1];
    if last == START {
      assert i < |log| - 1;
    } else {
      var init := log[..|log| - 1];
      assert last == CHECK;
      OpenHasStart(init, i);
      var k :| i < k < |init| && init[k] == START;
      assert log[k] == START;
    }
  }
}
