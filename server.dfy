/** The server side of the chat: the registry of client handlers, the
    broadcast fan-out over it, and each handler's session loop, which carries
    out the protocol of module Protocol on the registry. */
module Server {
  import opened Text
  import opened Protocol
  import opened ProtocolProperties

  // ---------------------------------------------------------------------
  // The registry as a list

  predicate Distinct<T(==)>(s: seq<T>) {
    forall i, j :: 0 <= i < j < |s| ==> s[i] != s[j]
  }

  /** List.remove: deletes the first occurrence of `x`, if any. */
  function Remove<T(==)>(s: seq<T>, x: T): (r: seq<T>)
    ensures |r| == if x in s then |s| - 1 else |s|
  {
    if s == [] then []
    else
      assert x in s <==> s[0] == x || x in s[1..];
      if s[0] == x then s[1..] else [s[0]] + Remove(s[1..], x)
  }

  /** Removing a non-member changes nothing. */
  lemma {:induction false} RemoveAbsent<T>(s: seq<T>, x: T)
    requires x !in s
    ensures Remove(s, x) == s
  {
    if s != [] {
      assert s == [s[0]] + s[1..];
      RemoveAbsent(s[1..], x);
    }
  }

  /** Removing a member cuts out its first occurrence and keeps everything
      else in order. */
  lemma {:induction false} RemoveAt<T>(s: seq<T>, x: T, i: nat)
    requires i < |s| && s[i] == x && x !in s[..i]
    ensures Remove(s, x) == s[..i] + s[i + 1..]
  {
    if i > 0 {
      assert s[0] == s[..i][0];
      assert s[1..][..i - 1] == s[..i][1..];
      RemoveAt(s[1..], x, i - 1);
      assert s[..i] == [s[0]] + s[1..][..i - 1];
      assert s[i + 1..] == s[1..][i..];
    }
  }

  /** Cutting one position out of a list without repeats leaves a list
      without repeats holding every other member and not the one cut. */
  lemma CutDistinct<T>(s: seq<T>, i: nat)
    requires Distinct(s) && i < |s|
    ensures var r := s[..i] + s[i + 1..];
      && Distinct(r)
      && s[i] !in r
      && forall y :: y in s && y != s[i] ==> y in r
  {
    var r := s[..i] + s[i + 1..];
    assert forall k :: 0 <= k < |r| ==> r[k] == if k < i then s[k] else s[k + 1];
    forall y | y in s && y != s[i]
      ensures y in r
    {
      var k :| 0 <= k < |s| && s[k] == y;
      assert r[if k < i then k else k - 1] == y;
    }
  }

  /** In a list without repeats, the removed member is gone afterwards, every
      other member stays, and removing again changes nothing. */
  lemma RemoveFromDistinct<T>(s: seq<T>, x: T)
    requires Distinct(s)
    ensures Distinct(Remove(s, x))
    ensures x !in Remove(s, x)
    ensures forall y :: y != x ==> (y in Remove(s, x) <==> y in s)
    ensures Remove(Remove(s, x), x) == Remove(s, x)
  {
    var r := Remove(s, x);
    if x in s {
      var i :| 0 <= i < |s| && s[i] == x;
      assert x !in s[..i];
      RemoveAt(s, x, i);
      CutDistinct(s, i);
    } else {
      RemoveAbsent(s, x);
    }
    RemoveAbsent(r, x);
  }

  // ---------------------------------------------------------------------
  // How performed actions show up in the outboxes

  /** Writing one more message while the handler is open: its own client and
      (for a broadcast) every other client get one more message. */
  lemma AfterSend(acts: seq<Action>, a: Action)
    requires a.Reply? || a.Broadcast?
    requires MarkClosed !in acts
    ensures MarkClosed !in acts + [a]
    ensures Sent(acts + [a]) == Sent(acts) + [a.msg]
    ensures Broadcasts(acts + [a]) == Broadcasts(acts) + (if a.Broadcast? then [a.msg] else [])
  {
    SentAppend(acts, [a]);
    BroadcastsAppend(acts, [a]);
    ObserveCons(a, [], MarkClosed);
    assert [a] == [a] + [];
    if !a.Broadcast? {
      assert Broadcasts(acts) + [] == Broadcasts(acts);
    }
  }

  /** Cleanup after the actions so far: the others get the leave notice, the
      leaving client gets nothing more. */
  lemma AfterCleanup(acts: seq<Action>, c: Conn)
    requires MarkClosed !in acts
    ensures Broadcasts(acts + Cleanup(c).actions) == Broadcasts(acts) + [Left(c.name)]
    ensures SelfInbox(acts + Cleanup(c).actions) == Sent(acts)
  {
    var cl := Cleanup(c).actions;
    CleanupObserved(c);
    BroadcastsAppend(acts, cl);
    SelfInboxAppend(acts, cl);
    assert Sent(acts) + [] == Sent(acts);
  }

  /** One more pass of the chat loop on a line that does not quit: the
      actions so far grow by what the line emits, and the whole run is still
      those actions followed by the run on the events after the line. */
  lemma Advance(c: Conn, lines: seq<Event>, rest: seq<Event>, acts: seq<Action>, emitted: seq<Action>, port: nat)
    requires c.phase == Active && rest != [] && MarkClosed !in acts
    requires rest[0].Line? && !IsQuit(Trim(rest[0].text))
    requires emitted == if IsBlank(rest[0].text) then [] else [Broadcast(Chat(c.name, Trim(rest[0].text)))]
    requires var here := Run(c, rest, port);
      Run(c, lines, port) == Transition(here.next, acts + here.actions)
    ensures MarkClosed !in acts + emitted
    ensures Sent(acts + emitted) == Sent(acts) + Sent(emitted)
    ensures Broadcasts(acts + emitted) == Broadcasts(acts) + Broadcasts(emitted)
    ensures var after := Run(c, rest[1..], port);
      Run(c, lines, port) == Transition(after.next, (acts + emitted) + after.actions)
  {
    var after := Run(c, rest[1..], port);
    ReadOne(c, rest, port);
    assert Run(c, rest, port) == Transition(after.next, emitted + after.actions);
    Assoc(acts, emitted, after.actions);
    SentAppend(acts, emitted);
    BroadcastsAppend(acts, emitted);
  }

  /** The pass of the chat loop that ends it: the whole run is the actions so
      far followed by cleanup. */
  lemma Finish(c: Conn, lines: seq<Event>, rest: seq<Event>, acts: seq<Action>, port: nat)
    requires c.phase == Active && rest != []
    requires !rest[0].Line? || IsQuit(Trim(rest[0].text))
    requires var here := Run(c, rest, port);
      Run(c, lines, port) == Transition(here.next, acts + here.actions)
    ensures Run(c, lines, port) == Transition(Cleanup(c).next, acts + Cleanup(c).actions)
  {
    ReadOne(c, rest, port);
  }

  /** What the greeting and the join notice show. */
  lemma ObserveGreeting(n: string)
    ensures var acts := [Reply(Greeting(n)), Broadcast(Joined(n))];
      && MarkClosed !in acts
      && Sent(acts) == [Greeting(n)] + [Joined(n)]
      && Broadcasts(acts) == [Joined(n)]
  {
    var a2 := [Broadcast(Joined(n))];
    ObserveCons(Broadcast(Joined(n)), [], MarkClosed);
    assert a2 == [Broadcast(Joined(n))] + [];
    ObserveCons(Reply(Greeting(n)), a2, MarkClosed);
    assert [Reply(Greeting(n)), Broadcast(Joined(n))] == [Reply(Greeting(n))] + a2;
  }

  /** While the handler is open its own client gets everything sent. */
  lemma WhileOpen(acts: seq<Action>)
    requires MarkClosed !in acts
    ensures SelfInbox(acts) == Sent(acts)
  {
    SelfInboxAppend(acts, []);
    assert acts + [] == acts;
  }

  // ---------------------------------------------------------------------
  // Client handlers

  class ClientHandler {
    /** The remote port of the connection. */
    const port: nat
    const server: ChatServer
    var clientName: string
    /** Set by cleanup before it announces the departure. */
    var closed: bool
    /** Whether the socket has been closed; cleanup closes it. */
    var socketClosed: bool
    /** Whether the writer to the client exists yet. */
    var hasWriter: bool
    /** Every message written to this client, in order; the line on the
        wire is its Render. */
    var outbox: seq<Message>

    constructor (port: nat, server: ChatServer)
      ensures this.port == port && this.server == server
      ensures clientName == InitialName && !closed && !socketClosed && !hasWriter && outbox == []
    {
      this.port := port;
      this.server := server;
      clientName := InitialName;
      closed := false;
      socketClosed := false;
      hasWriter := false;
      outbox := [];
    }

    predicate IsClosed()
      reads this
    {
      closed || socketClosed
    }

    /** Whether a broadcast made now reaches this client: it is not closed
        and its writer exists. */
    predicate Receives()
      reads this
    {
      !IsClosed() && hasWriter
    }

    /** Writes a message to the client; nothing happens before the writer
        exists. */
    method Send(message: Message)
      modifies this`outbox
      ensures outbox == if hasWriter then old(outbox) + [message] else old(outbox)
    {
      if hasWriter {
        outbox := outbox + [message];
      }
    }

    /** cleanup: marks the handler closed, announces the departure under the
        current name to every other open client with a writer, closes the
        socket and deregisters the handler. The leaving client itself never
        receives the notice. */
    method Cleanup()
      requires server.Valid()
      modifies this`closed, this`socketClosed, server, server.clients`outbox
      ensures server.Valid()
      ensures closed && socketClosed
      ensures outbox == old(outbox)
      ensures server.clients == Remove(old(server.clients), this)
      ensures forall c :: c in old(server.clients) && c != this ==>
        c.outbox == old(c.outbox) + (if old(c.Receives()) then [Left(clientName)] else [])
    {
      closed := true;
      server.Broadcast(Left(clientName));
      // in, out and the socket are closed here
      socketClosed := true;
      server.RemoveClient(this);
    }

    /** run: the session of one connection, fed what the client's line
        reader yields; cleanup runs once the session has ended, whether
        normally or by an error. Afterwards the handler, its own client, the
        other clients and the registry are exactly as Protocol.Session
        prescribes: the handler's name and phase are the machine's, its
        client has received every reply and every broadcast made before it
        closed, every other client that could receive has received every
        broadcast, and the handler is deregistered once it has closed. */
    method Run(setupOk: bool, events: seq<Event>)
      requires server.Valid() && this in server.clients
      requires clientName == InitialName && !closed && !socketClosed && !hasWriter
      modifies this, server, server.clients`outbox
      ensures server.Valid()
      ensures var t := Session(setupOk, events, port);
        && clientName == t.next.name
        && closed == (t.next.phase == Closed) && socketClosed == closed
        && hasWriter == setupOk
        && outbox == old(outbox) + SelfInbox(t.actions)
        && server.clients == (if t.next.phase == Closed then Remove(old(server.clients), this) else old(server.clients))
        && forall c :: c in old(server.clients) && c != this ==>
          c.outbox == old(c.outbox) + (if old(c.Receives()) then Broadcasts(t.actions) else [])
    {
      var ended;
      ghost var acts;
      ended, acts := Serve(setupOk, events);
      if ended {
        ghost var cl := Protocol.Cleanup(Conn(Active, clientName)).actions;
        AfterCleanup(acts, Conn(Active, clientName));
        label finally:
        Cleanup();
        forall c | c in old(server.clients) && c != this
          ensures c.outbox == old(c.outbox) + (if old(c.Receives()) then Broadcasts(acts + cl) else [])
        {
          assert old@finally(c.closed) == old(c.closed) && old@finally(c.socketClosed) == old(c.socketClosed) && old@finally(c.hasWriter) == old(c.hasWriter);
          assert old@finally(c.Receives()) == old(c.Receives());
          if old(c.Receives()) {
            assert c.outbox == (old(c.outbox) + Broadcasts(acts)) + [Left(clientName)];
          }
        }
      } else {
        WhileOpen(acts);
        assert acts + [] == acts;
      }
    }

    /** The try block of run: open the streams, welcome the client, then
        the reads of Converse. `ended` says whether the block finished
        (normally or by an error) rather than waiting for more input; `acts`
        is what it did, which is what the machine does apart from the final
        cleanup. */
    method Serve(setupOk: bool, events: seq<Event>) returns (ended: bool, ghost acts: seq<Action>)
      requires server.Valid() && this in server.clients
      requires clientName == InitialName && !closed && !socketClosed && !hasWriter
      modifies this`clientName, this`hasWriter, this`outbox, server.clients`outbox
      ensures var t := Session(setupOk, events, port);
        && t.next.name == clientName
        && (t.next.phase == Closed <==> ended)
        && t.actions == acts + (if ended then Protocol.Cleanup(Conn(Active, clientName)).actions else [])
      ensures MarkClosed !in acts && hasWriter == setupOk
      ensures outbox == old(outbox) + Sent(acts)
      ensures forall c :: c in server.clients && c != this ==>
        c.outbox == old(c.outbox) + (if old(c.Receives()) then Broadcasts(acts) else [])
    {
      if !setupOk {
        // opening the reader or the writer failed
        SessionSetupFailed(events, port);
        acts := [];
        ended := true;
        return;
      }
      hasWriter := true;
      outbox := outbox + [Welcome];
      label welcomed:
      ghost var talk;
      ended, talk := Converse(events);
      SessionOpened(events, port);
      acts := [Reply(Welcome)] + talk;
      ObserveCons(Reply(Welcome), talk, MarkClosed);
      Assoc(old(outbox), [Welcome], Sent(talk));
      Assoc([Reply(Welcome)], talk, if ended then Protocol.Cleanup(Conn(Active, clientName)).actions else []);
      assert Broadcasts(acts) == Broadcasts(talk);
      forall c | c in server.clients && c != this
        ensures c.outbox == old(c.outbox) + (if old(c.Receives()) then Broadcasts(acts) else [])
      {
        assert old@welcomed(c.outbox) == old(c.outbox);
        assert old@welcomed(c.closed) == old(c.closed) && old@welcomed(c.socketClosed) == old(c.socketClosed) && old@welcomed(c.hasWriter) == old(c.hasWriter);
        assert old@welcomed(c.Receives()) == old(c.Receives());
      }
    }

    /** The reads of run's try block: the first line read (or end of stream)
        names the client, who is greeted and whose join is announced; the
        chat loop follows. A read error ends the block at once. `ended` and
        `acts` are as for Serve, against the handshake phase of the
        machine. */
    method Converse(events: seq<Event>) returns (ended: bool, ghost acts: seq<Action>)
      requires server.Valid() && this in server.clients
      requires clientName == InitialName && !closed && !socketClosed && hasWriter
      modifies this`clientName, this`outbox, server.clients`outbox
      ensures var t := Protocol.Run(Conn(Handshake, InitialName), events, port);
        && t.next.name == clientName
        && (t.next.phase == Closed <==> ended)
        && t.actions == acts + (if ended then Protocol.Cleanup(Conn(Active, clientName)).actions else [])
      ensures MarkClosed !in acts
      ensures outbox == old(outbox) + Sent(acts)
      ensures forall c :: c in server.clients && c != this ==>
        c.outbox == old(c.outbox) + (if old(c.Receives()) then Broadcasts(acts) else [])
    {
      acts := [];
      if events == [] {
        // still waiting for the name
        ended := false;
        return;
      }
      var first := events[0];
      if first.ReadError? {
        HandshakeFails(InitialName, events, port);
        ended := true;
        return;
      }
      ended, acts := Named(first, events[1..]);
      HandshakeNamed(InitialName, events, port);
    }

    /** Run's try block once the first read has named the client: greeting
        and join notice, then the chat loop on the lines that follow, unless
        the stream had already ended. */
    method Named(first: Event, lines: seq<Event>) returns (ended: bool, ghost acts: seq<Action>)
      requires !first.ReadError?
      requires server.Valid() && this in server.clients
      requires !closed && !socketClosed && hasWriter
      modifies this`clientName, this`outbox, server.clients`outbox
      ensures clientName == ChooseName(if first.Line? then Some(first.text) else None, port)
      ensures var head := [Reply(Greeting(clientName)), Broadcast(Joined(clientName))];
        var t := Protocol.Run(Conn(Active, clientName), lines, port);
        if first.EndOfStream? then ended && acts == head
        else
          && t.next.name == clientName
          && (t.next.phase == Closed <==> ended)
          && head + t.actions == acts + (if ended then Protocol.Cleanup(Conn(Active, clientName)).actions else [])
      ensures MarkClosed !in acts
      ensures outbox == old(outbox) + Sent(acts)
      ensures forall c :: c in server.clients && c != this ==>
        c.outbox == old(c.outbox) + (if old(c.Receives()) then Broadcasts(acts) else [])
    {
      Greet(first);
      ghost var n := clientName;
      acts := [Reply(Greeting(n)), Broadcast(Joined(n))];
      ObserveGreeting(n);
      Assoc(old(outbox), [Greeting(n)], [Joined(n)]);
      if first.EndOfStream? {
        // the loop's first read meets the same end of stream
        ended := true;
        return;
      }
      ghost var loopActs;
      label loop:
      ended, loopActs := ChatLoop(lines);
      assert outbox == old@loop(outbox) + Sent(loopActs);
      Assoc(acts, loopActs, if ended then Protocol.Cleanup(Conn(Active, n)).actions else []);
      SentAppend(acts, loopActs);
      BroadcastsAppend(acts, loopActs);
      forall c | c in server.clients && c != this
        ensures c.outbox == old(c.outbox) + (if old(c.Receives()) then Broadcasts(acts + loopActs) else [])
      {
        assert old@loop(c.closed) == old(c.closed) && old@loop(c.socketClosed) == old(c.socketClosed) && old@loop(c.hasWriter) == old(c.hasWriter);
        assert old@loop(c.Receives()) == old(c.Receives());
        if old(c.Receives()) {
          Assoc(old(c.outbox), Broadcasts(acts), Broadcasts(loopActs));
        }
      }
      Assoc(old(outbox), Sent(acts), Sent(loopActs));
      acts := acts + loopActs;
    }

    /** The name step of run: the first line read (or end of stream) names
        the client, who is greeted; the join is then announced to every
        client that can receive, this one included. */
    method Greet(first: Event)
      requires !first.ReadError?
      requires server.Valid() && this in server.clients
      requires !closed && !socketClosed && hasWriter
      modifies this`clientName, this`outbox, server.clients`outbox
      ensures clientName == ChooseName(if first.Line? then Some(first.text) else None, port)
      ensures outbox == old(outbox) + [Greeting(clientName)] + [Joined(clientName)]
      ensures forall c :: c in server.clients && c != this ==>
        c.outbox == old(c.outbox) + (if old(c.Receives()) then [Joined(clientName)] else [])
    {
      clientName := ChooseName(if first.Line? then Some(first.text) else None, port);
      outbox := outbox + [Greeting(clientName)];
      label greeted:
      server.Broadcast(Joined(clientName));
      forall c | c in server.clients && c != this
        ensures c.outbox == old(c.outbox) + (if old(c.Receives()) then [Joined(clientName)] else [])
      {
        assert old@greeted(c.outbox) == old(c.outbox);
        assert old@greeted(c.closed) == old(c.closed) && old@greeted(c.socketClosed) == old(c.socketClosed) && old@greeted(c.hasWriter) == old(c.hasWriter);
        assert old@greeted(c.Receives()) == old(c.Receives());
      }
    }

    /** The chat loop of run: reads until end of stream, a read error or a
        quit token (`ended`), or until the input so far is used up. `acts`
        is what the loop did; the machine does the same, followed by cleanup
        when the loop ended. */
    method ChatLoop(lines: seq<Event>) returns (ended: bool, ghost acts: seq<Action>)
      requires server.Valid() && this in server.clients
      requires !closed && !socketClosed && hasWriter
      modifies server.clients`outbox
      ensures var t := Protocol.Run(Conn(Active, clientName), lines, port);
        && t.next.name == clientName
        && (t.next.phase == Closed <==> ended)
        && t.actions == acts + (if ended then Protocol.Cleanup(Conn(Active, clientName)).actions else [])
      ensures MarkClosed !in acts && Sent(acts) == Broadcasts(acts)
      ensures forall c :: c in server.clients ==>
        c.outbox == old(c.outbox) + (if old(c.Receives()) then Broadcasts(acts) else [])
    {
      ghost var active := Conn(Active, clientName);
      acts := [];
      assert [] + Protocol.Run(active, lines, port).actions == Protocol.Run(active, lines, port).actions;
      var rest := lines;
      ended := false;
      while rest != [] && !ended
        invariant MarkClosed !in acts
        invariant !ended ==> var here := Protocol.Run(active, rest, port);
          Protocol.Run(active, lines, port) == Transition(here.next, acts + here.actions)
        invariant ended ==> var cl := Protocol.Cleanup(active);
          Protocol.Run(active, lines, port) == Transition(cl.next, acts + cl.actions)
        invariant Sent(acts) == Broadcasts(acts)
        invariant forall c :: c in server.clients ==>
          c.outbox == old(c.outbox) + (if old(c.Receives()) then Broadcasts(acts) else [])
        decreases |rest|
      {
        ghost var emitted;
        label pass:
        ended, emitted := HandleLine(rest[0]);
        if ended {
          Finish(active, lines, rest, acts, port);
        } else {
          Advance(active, lines, rest, acts, emitted, port);
          forall c | c in server.clients
            ensures c.outbox == old(c.outbox) + (if old(c.Receives()) then Broadcasts(acts + emitted) else [])
          {
            assert old@pass(c.closed) == old(c.closed) && old@pass(c.socketClosed) == old(c.socketClosed) && old@pass(c.hasWriter) == old(c.hasWriter);
            assert old@pass(c.Receives()) == old(c.Receives());
            if old(c.Receives()) {
              Assoc(old(c.outbox), Broadcasts(acts), Broadcasts(emitted));
            }
          }
          acts := acts + emitted;
        }
        rest := rest[1..];
      }
      if !ended {
        assert acts + [] == acts;
      }
    }

    /** One pass of run's chat loop on the line read: end of stream, a read
        error or a quit token (any letter case, after trimming) ends the loop
        with nothing sent; any other line is trimmed and, unless blank,
        broadcast under the client's name, which is all that `emitted`
        holds. */
    method HandleLine(e: Event) returns (done: bool, ghost emitted: seq<Action>)
      requires server.Valid() && this in server.clients
      requires !closed && !socketClosed && hasWriter
      modifies server.clients`outbox
      ensures done <==> !e.Line? || IsQuit(Trim(e.text))
      ensures emitted == if done || IsBlank(e.text) then [] else [Broadcast(Chat(clientName, Trim(e.text)))]
      ensures Sent(emitted) == Broadcasts(emitted)
      ensures forall c :: c in server.clients ==>
        c.outbox == old(c.outbox) + (if old(c.Receives()) then Broadcasts(emitted) else [])
    {
      emitted := [];
      match e {
        case Line(text) =>
          var line := Trim(text);
          TrimShape(text);
          if IsQuit(line) {
            done := true;
          } else {
            done := false;
            if line != [] {
              var a := Broadcast(Chat(clientName, line));
              server.Broadcast(a.msg);
              AfterSend([], a);
              assert [] + [a] == [a];
              emitted := [a];
            }
          }
        case _ =>
          done := true;
      }
    }
  }

  // ---------------------------------------------------------------------
  // The server

  class ChatServer {
    /** The registered handlers, in the order they connected. */
    var clients: seq<ClientHandler>

    ghost predicate Valid()
      reads this
    {
      Distinct(clients)
    }

    constructor ()
      ensures Valid() && clients == []
    {
      clients := [];
    }

    /** An accepted connection gets a fresh handler, appended to the
        registry before its session loop starts. */
    method Accept(port: nat) returns (h: ClientHandler)
      requires Valid()
      modifies this
      ensures Valid() && fresh(h)
      ensures clients == old(clients) + [h]
      ensures h.server == this && h.port == port
      ensures h.clientName == InitialName && !h.closed && !h.socketClosed && !h.hasWriter && h.outbox == []
    {
      h := new ClientHandler(port, this);
      clients := clients + [h];
    }

    /** Writes the message once to every registered handler that is not
        closed and has a writer, walking the registry in order; nothing else
        changes. */
    method Broadcast(message: Message)
      requires Valid()
      modifies clients`outbox
      ensures forall c :: c in clients ==>
        c.outbox == old(c.outbox) + (if old(c.Receives()) then [message] else [])
    {
      var snapshot := clients;
      var i := 0;
      while i < |snapshot|
        invariant 0 <= i <= |snapshot|
        invariant forall j :: 0 <= j < i ==>
          snapshot[j].outbox == old(snapshot[j].outbox) + (if snapshot[j].Receives() then [message] else [])
        invariant forall j :: i <= j < |snapshot| ==> snapshot[j].outbox == old(snapshot[j].outbox)
      {
        var client := snapshot[i];
        if !client.IsClosed() {
          client.Send(message);
        }
        i := i + 1;
      }
    }

    /** Deregisters a handler; the others keep their order, and removing a
        handler that is not registered changes nothing. */
    method RemoveClient(client: ClientHandler)
      requires Valid()
      modifies this
      ensures Valid()
      ensures clients == Remove(old(clients), client)
    {
      RemoveFromDistinct(clients, client);
      clients := Remove(clients, client);
    }
  }
}
