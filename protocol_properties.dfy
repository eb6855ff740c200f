/** What the per-connection protocol promises, stated over the state machine
    of module Protocol. */
module ProtocolProperties {
  import opened Text
  import opened Protocol

  // ---------------------------------------------------------------------
  // Name step

  /** The first line names the client: its trim, or the port's fallback when
      it is blank or the stream has already ended. A read error leaves the
      initial name in place and closes. */
  lemma NameStep(name0: string, e: Event, port: nat)
    ensures var t := Step(Conn(Handshake, name0), e, port);
      match e
      case Line(s) => t.next == Conn(Active, if IsBlank(s) then FallbackName(port) else Trim(s))
      case EndOfStream => t.next == Conn(Closed, FallbackName(port))
      case ReadError => t.next == Conn(Closed, name0)
  {
    match e {
      case Line(s) => ChooseNameShape(Some(s), port);
      case EndOfStream => ChooseNameShape(None, port);
      case ReadError =>
    }
  }

  /** Exactly one join notice follows the name step, under the chosen name,
      even when the first read already met end of stream (which is then
      followed by the leave notice). */
  lemma JoinedOnce(name0: string, e: Event, port: nat)
    requires !e.ReadError?
    ensures var t := Step(Conn(Handshake, name0), e, port);
      var n := t.next.name;
      && t.actions[..2] == [Reply(Greeting(n)), Broadcast(Joined(n))]
      && Broadcasts(t.actions) == if e.EndOfStream? then [Joined(n), Left(n)] else [Joined(n)]
  {
    var t := Step(Conn(Handshake, name0), e, port);
    var n := t.next.name;
    var head := [Reply(Greeting(n)), Broadcast(Joined(n))];
    assert Broadcasts(head) == [Joined(n)] by {
      ObserveCons(Broadcast(Joined(n)), [], MarkClosed);
      ObserveCons(Reply(Greeting(n)), [Broadcast(Joined(n))], MarkClosed);
      assert [Broadcast(Joined(n))] == [Broadcast(Joined(n))] + [];
    }
    if e.EndOfStream? {
      var tail := Cleanup(t.next).actions;
      assert t.actions == head + tail;
      BroadcastsAppend(head, tail);
      CleanupObserved(t.next);
    } else {
      assert t.actions == head;
    }
  }

  // ---------------------------------------------------------------------
  // Chat loop

  /** In the chat loop a quit token (any letter case, after trimming) closes
      the session at once: the only broadcast is the leave notice, and no
      later event is read. */
  lemma {:induction false} QuitEndsSession(c: Conn, s: string, rest: seq<Event>, port: nat)
    requires c.phase == Active && IsQuit(Trim(s))
    ensures Run(c, [Line(s)] + rest, port) == Cleanup(c)
  {
    var events := [Line(s)] + rest;
    assert events[0] == Line(s);
    var t := Step(c, events[0], port);
    assert t == Cleanup(c);
    assert Run(t.next, events[1..], port) == Transition(t.next, []);
    assert t.actions + [] == t.actions;
  }

  /** A line that is not the quit token keeps the session open: a blank one
      is dropped, any other yields exactly one chat broadcast of its trim. */
  lemma ChatLine(c: Conn, s: string, port: nat)
    requires c.phase == Active && !IsQuit(Trim(s))
    ensures Step(c, Line(s), port) ==
      Transition(c, if IsBlank(s) then [] else [Broadcast(Chat(c.name, Trim(s)))])
  {
    TrimShape(s);
  }

  /** End of stream or a read error in the chat loop closes the session
      through cleanup. */
  lemma LoopEnds(c: Conn, e: Event, port: nat)
    requires c.phase == Active && !e.Line?
    ensures Step(c, e, port) == Cleanup(c)
  {
  }

  /** One read of the chat loop, seen from the whole run: end of stream, a
      read error or a quit token ends it through cleanup; any other line
      contributes its chat broadcast (none when blank) and the loop goes on
      with the same connection. */
  lemma ReadOne(c: Conn, events: seq<Event>, port: nat)
    requires c.phase == Active && events != []
    ensures var e := events[0];
      !e.Line? || IsQuit(Trim(e.text)) ==> Run(c, events, port) == Cleanup(c)
    ensures var e := events[0];
      var rest := Run(c, events[1..], port);
      e.Line? && !IsQuit(Trim(e.text)) ==>
        Run(c, events, port) ==
          Transition(rest.next, (if IsBlank(e.text) then [] else [Broadcast(Chat(c.name, Trim(e.text)))]) + rest.actions)
  {
    var e := events[0];
    assert events == [e] + events[1..];
    RunCons(c, e, events[1..], port);
    if e.Line? && !IsQuit(Trim(e.text)) {
      ChatLine(c, e.text, port);
    } else {
      if e.Line? {
        assert Step(c, e, port) == Cleanup(c);
      } else {
        LoopEnds(c, e, port);
      }
      var r := Run(Conn(Closed, c.name), events[1..], port);
      assert r == Transition(Conn(Closed, c.name), []);
      assert Cleanup(c).actions + [] == Cleanup(c).actions;
    }
  }

  /** The events that deliver the given lines, in order. */
  function AsEvents(lines: seq<string>): seq<Event> {
    seq(|lines|, i requires 0 <= i < |lines| => Line(lines[i]))
  }

  /** Reference transcript of a run of chat lines: one message per
      non-blank line, in order, carrying the line's trim. */
  function ChatTranscript(name: string, lines: seq<string>): seq<Message> {
    if lines == [] then []
    else (if IsBlank(lines[0]) then [] else [Chat(name, Trim(lines[0]))]) + ChatTranscript(name, lines[1..])
  }

  predicate NoQuit(lines: seq<string>) {
    forall i :: 0 <= i < |lines| ==> !IsQuit(Trim(lines[i]))
  }

  /** Lines that do not quit broadcast exactly their reference transcript and
      leave the session where it was; what follows them is read afterwards. */
  lemma {:induction false} ChatLoop(c: Conn, lines: seq<string>, tail: seq<Event>, port: nat)
    requires c.phase == Active && NoQuit(lines)
    ensures var r := Run(c, AsEvents(lines) + tail, port);
      && r.next == Run(c, tail, port).next
      && Broadcasts(r.actions) == ChatTranscript(c.name, lines) + Broadcasts(Run(c, tail, port).actions)
  {
    var events := AsEvents(lines) + tail;
    if lines == [] {
      assert events == tail;
    } else {
      assert events[0] == Line(lines[0]);
      assert events[1..] == AsEvents(lines[1..]) + tail;
      assert !IsQuit(Trim(lines[0]));
      ReadOne(c, events, port);
      ChatLoop(c, lines[1..], tail, port);
      var rest := Run(c, events[1..], port);
      var after := Broadcasts(Run(c, tail, port).actions);
      var first := if IsBlank(lines[0]) then [] else [Chat(c.name, Trim(lines[0]))];
      var emitted := if IsBlank(lines[0]) then [] else [Broadcast(Chat(c.name, Trim(lines[0])))];
      BroadcastsAppend(emitted, rest.actions);
      assert Broadcasts(emitted) == first by {
        if emitted != [] {
          ObserveCons(emitted[0], [], MarkClosed);
          assert emitted == [emitted[0]] + [];
        }
      }
      assert ChatTranscript(c.name, lines) == first + ChatTranscript(c.name, lines[1..]);
      Assoc(first, ChatTranscript(c.name, lines[1..]), after);
    }
  }

  // ---------------------------------------------------------------------
  // Whole sessions

  /** What cleanup shows the clients: the leave notice to the others, and
      nothing to the leaving client itself, whose closed flag is set first. */
  lemma CleanupObserved(c: Conn)
    ensures var acts := Cleanup(c).actions;
      && Broadcasts(acts) == [Left(c.name)]
      && SelfInbox(acts) == []
      && Count(acts, MarkClosed) == 1
      && Count(acts, Deregister) == 1
  {
    var acts := Cleanup(c).actions;
    ObserveCons(Deregister, [], MarkClosed);
    ObserveCons(Deregister, [], Deregister);
    ObserveCons(Broadcast(Left(c.name)), [Deregister], MarkClosed);
    ObserveCons(Broadcast(Left(c.name)), [Deregister], Deregister);
    ObserveCons(MarkClosed, [Broadcast(Left(c.name)), Deregister], MarkClosed);
    ObserveCons(MarkClosed, [Broadcast(Left(c.name)), Deregister], Deregister);
    assert [Deregister] == [Deregister] + [];
    assert acts == [MarkClosed] + [Broadcast(Left(c.name)), Deregister];
  }

  /** The events that end the chat loop: end of stream, a read error, or a
      line whose trim is the quit token. */
  predicate IsTerminal(e: Event) {
    e.EndOfStream? || e.ReadError? || (e.Line? && IsQuit(Trim(e.text)))
  }

  /** Whichever terminal event ends the chat loop, what follows is cleanup
      and nothing else is read. */
  lemma TerminalEnds(c: Conn, terminal: Event, rest: seq<Event>, port: nat)
    requires c.phase == Active && IsTerminal(terminal)
    ensures Run(c, [terminal] + rest, port) == Cleanup(c)
  {
    if terminal.Line? {
      QuitEndsSession(c, terminal.text, rest, port);
    } else {
      LoopEnds(c, terminal, port);
      RunCons(c, terminal, rest, port);
      assert Cleanup(c).actions + [] == Cleanup(c).actions;
    }
  }

  /** A session whose first line names it: welcome, greeting and join
      notice under the chosen name, then the chat loop on the remaining
      events. */
  lemma NamedSession(first: string, evs: seq<Event>, port: nat)
    ensures var n := if IsBlank(first) then FallbackName(port) else Trim(first);
      var loop := Run(Conn(Active, n), evs, port);
      Session(true, [Line(first)] + evs, port) ==
        Transition(loop.next, [Reply(Welcome), Reply(Greeting(n)), Broadcast(Joined(n))] + loop.actions)
  {
    var n := ChooseName(Some(first), port);
    ChooseNameShape(Some(first), port);
    var hs := Conn(Handshake, InitialName);
    var step := Step(hs, Line(first), port);
    assert step == Transition(Conn(Active, n), [Reply(Greeting(n)), Broadcast(Joined(n))]);
    RunCons(hs, Line(first), evs, port);
    var loop := Run(Conn(Active, n), evs, port);
    assert Open(true) == Transition(hs, [Reply(Welcome)]);
    assert [Reply(Welcome)] + (step.actions + loop.actions)
        == [Reply(Welcome), Reply(Greeting(n)), Broadcast(Joined(n))] + loop.actions;
  }

  /** In the chat loop, lines that do not quit followed by a terminal event
      broadcast the lines' reference transcript and then the leave notice. */
  lemma ChatThenEnd(c: Conn, lines: seq<string>, terminal: Event, rest: seq<Event>, port: nat)
    requires c.phase == Active && NoQuit(lines) && IsTerminal(terminal)
    ensures var r := Run(c, AsEvents(lines) + ([terminal] + rest), port);
      && r.next == Conn(Closed, c.name)
      && Broadcasts(r.actions) == ChatTranscript(c.name, lines) + [Left(c.name)]
  {
    ChatLoop(c, lines, [terminal] + rest, port);
    TerminalEnds(c, terminal, rest, port);
    CleanupObserved(c);
  }

  // ---------------------------------------------------------------------
  // How a session begins

  /** A failure while opening the streams goes straight to cleanup. */
  lemma SessionSetupFailed(events: seq<Event>, port: nat)
    ensures Session(false, events, port) ==
      Transition(Conn(Closed, InitialName), Cleanup(Conn(Handshake, InitialName)).actions)
  {
    var o := Open(false);
    assert Run(o.next, events, port) == Transition(o.next, []);
    assert o.actions + [] == o.actions;
  }

  /** Once the reader and the writer are open the client is welcomed, and
      the rest of the session is what the reads of the handshake make of it. */
  lemma SessionOpened(events: seq<Event>, port: nat)
    ensures var r := Run(Conn(Handshake, InitialName), events, port);
      Session(true, events, port) == Transition(r.next, [Reply(Welcome)] + r.actions)
  {
  }

  /** A read error instead of a name: cleanup under the name held so far,
      and nothing more is read. */
  lemma HandshakeFails(name0: string, events: seq<Event>, port: nat)
    requires events != [] && events[0].ReadError?
    ensures Run(Conn(Handshake, name0), events, port) == Cleanup(Conn(Handshake, name0))
  {
    var hs := Conn(Handshake, name0);
    assert events == [events[0]] + events[1..];
    RunCons(hs, events[0], events[1..], port);
    assert Run(Conn(Closed, name0), events[1..], port).actions == [];
    assert Cleanup(hs).actions + [] == Cleanup(hs).actions;
  }

  /** A first line (or end of stream) names the client: greeting and join
      notice, then either the chat loop on the remaining events or, at end of
      stream, cleanup under the chosen name. */
  lemma HandshakeNamed(name0: string, events: seq<Event>, port: nat)
    requires events != [] && !events[0].ReadError?
    ensures var n := ChooseName(if events[0].Line? then Some(events[0].text) else None, port);
      var head := [Reply(Greeting(n)), Broadcast(Joined(n))];
      var rest := Run(Conn(Active, n), events[1..], port);
      Run(Conn(Handshake, name0), events, port) ==
        if events[0].EndOfStream? then Transition(Conn(Closed, n), head + Cleanup(Conn(Active, n)).actions)
        else Transition(rest.next, head + rest.actions)
  {
    var hs := Conn(Handshake, name0);
    assert events == [events[0]] + events[1..];
    RunCons(hs, events[0], events[1..], port);
    var step := Step(hs, events[0], port);
    if events[0].EndOfStream? {
      var r := Run(step.next, events[1..], port);
      assert r == Transition(step.next, []);
      assert step.actions + [] == step.actions;
    }
  }

  /** A named session broadcasts its join notice, the reference transcript
      of its chat lines, and one leave notice, all under the chosen name; the
      events after the terminal one are never read. */
  lemma Transcript(first: string, lines: seq<string>, terminal: Event, rest: seq<Event>, port: nat)
    requires NoQuit(lines) && IsTerminal(terminal)
    ensures var n := if IsBlank(first) then FallbackName(port) else Trim(first);
      var t := Session(true, [Line(first)] + AsEvents(lines) + [terminal] + rest, port);
      && t.next == Conn(Closed, n)
      && Broadcasts(t.actions) == [Joined(n)] + ChatTranscript(n, lines) + [Left(n)]
  {
    var n := if IsBlank(first) then FallbackName(port) else Trim(first);
    var evs := AsEvents(lines) + ([terminal] + rest);
    Assoc([Line(first)] + AsEvents(lines), [terminal], rest);
    Assoc([Line(first)], AsEvents(lines), [terminal] + rest);
    NamedSession(first, evs, port);
    ChatThenEnd(Conn(Active, n), lines, terminal, rest, port);
    var loop := Run(Conn(Active, n), evs, port);
    var head := [Reply(Welcome), Reply(Greeting(n)), Broadcast(Joined(n))];
    BroadcastsAppend(head, loop.actions);
    assert Broadcasts(head) == [Joined(n)] by {
      ObserveCons(Broadcast(Joined(n)), [], MarkClosed);
      ObserveCons(Reply(Greeting(n)), [Broadcast(Joined(n))], MarkClosed);
      ObserveCons(Reply(Welcome), [Reply(Greeting(n)), Broadcast(Joined(n))], MarkClosed);
      assert [Broadcast(Joined(n))] == [Broadcast(Joined(n))] + [];
    }
    Assoc([Joined(n)], ChatTranscript(n, lines), [Left(n)]);
  }

  /** A failure before naming: when opening the streams fails, or the first
      read fails, the only broadcast is the leave notice under the initial
      name "Unknown"; the client itself has at most seen the welcome. */
  lemma FailureBeforeNaming(setupOk: bool, rest: seq<Event>, port: nat)
    ensures var t := Session(setupOk, if setupOk then [ReadError] + rest else rest, port);
      && t.next == Conn(Closed, InitialName)
      && Broadcasts(t.actions) == [Left(InitialName)]
      && SelfInbox(t.actions) == if setupOk then [Welcome] else []
  {
    var events := if setupOk then [ReadError] + rest else rest;
    var t := Session(setupOk, events, port);
    var cl := Cleanup(Conn(Handshake, InitialName)).actions;
    CleanupObserved(Conn(Handshake, InitialName));
    if setupOk {
      assert events[0] == ReadError;
      var r := Run(Conn(Handshake, InitialName), events, port);
      assert Run(Conn(Closed, InitialName), events[1..], port).actions == [];
      assert r.actions == cl + [];
      assert t.actions == [Reply(Welcome)] + cl;
      BroadcastsAppend([Reply(Welcome)], cl);
      SelfInboxAppend([Reply(Welcome)], cl);
      assert [Reply(Welcome)][1..] == [];
    } else {
      assert Run(Conn(Closed, InitialName), events, port) == Transition(Conn(Closed, InitialName), []);
      assert t.actions == cl + [];
      assert cl + [] == cl;
    }
  }

  /** A client that disconnects before naming itself is still announced:
      join and leave notices under the port's fallback name. */
  lemma DisconnectBeforeNaming(rest: seq<Event>, port: nat)
    ensures var n := FallbackName(port);
      var t := Session(true, [EndOfStream] + rest, port);
      && t.next == Conn(Closed, n)
      && Broadcasts(t.actions) == [Joined(n), Left(n)]
  {
    var events := [EndOfStream] + rest;
    var t := Session(true, events, port);
    assert events[0] == EndOfStream;
    var step := Step(Conn(Handshake, InitialName), EndOfStream, port);
    NameStep(InitialName, EndOfStream, port);
    JoinedOnce(InitialName, EndOfStream, port);
    assert Run(step.next, events[1..], port).actions == [];
    assert t.actions == [Reply(Welcome)] + (step.actions + []);
    assert step.actions + [] == step.actions;
    BroadcastsAppend([Reply(Welcome)], step.actions);
    assert [Reply(Welcome)][1..] == [];
  }

  // ---------------------------------------------------------------------
  // Cleanup

  /** The shape every trace of the machine has: while open it never closes
      or deregisters; once closed it ends with cleanup under the final name,
      and nothing before that closes or deregisters. */
  predicate Shaped(t: Transition, pre: seq<Action>) {
    && MarkClosed !in pre && Deregister !in pre
    && t.actions == pre + (if t.next.phase == Closed then Cleanup(t.next).actions else [])
  }

  lemma StepShape(c: Conn, e: Event, port: nat) returns (pre: seq<Action>)
    requires c.phase != Closed
    ensures Shaped(Step(c, e, port), pre)
  {
    var t := Step(c, e, port);
    if t.next.phase == Closed {
      if c.phase == Handshake && e.EndOfStream? {
        pre := t.actions[..2];
      } else {
        pre := [];
      }
    } else {
      pre := t.actions;
    }
  }

  lemma {:induction false} RunShape(c: Conn, events: seq<Event>, port: nat) returns (pre: seq<Action>)
    requires c.phase != Closed
    ensures Shaped(Run(c, events, port), pre)
    decreases |events|
  {
    if events == [] {
      pre := [];
    } else {
      var step := Step(c, events[0], port);
      var p1 := StepShape(c, events[0], port);
      var rest := Run(step.next, events[1..], port);
      assert events == [events[0]] + events[1..];
      RunCons(c, events[0], events[1..], port);
      if step.next.phase == Closed {
        assert rest == Transition(step.next, []);
        assert step.actions + [] == step.actions;
        pre := p1;
      } else {
        var p2 := RunShape(step.next, events[1..], port);
        assert step.actions == p1;
        pre := p1 + p2;
        assert step.actions + rest.actions == pre + (if rest.next.phase == Closed then Cleanup(rest.next).actions else []);
      }
    }
  }

  lemma SessionShape(setupOk: bool, events: seq<Event>, port: nat) returns (pre: seq<Action>)
    ensures Shaped(Session(setupOk, events, port), pre)
  {
    var o := Open(setupOk);
    var r := Run(o.next, events, port);
    if setupOk {
      var p := RunShape(o.next, events, port);
      pre := o.actions + p;
    } else {
      assert r == Transition(o.next, []);
      pre := [];
    }
  }

  lemma {:induction false} CountAbsent(acts: seq<Action>, x: Action)
    requires x !in acts
    ensures Count(acts, x) == 0
  {
    if acts != [] {
      CountAbsent(acts[1..], x);
    }
  }

  /** Every exit path (quit, end of stream, read error, failed setup) runs
      cleanup exactly once, and a session still waiting for input has not
      run it: closed is set and the handler deregistered once or never. */
  lemma CleanupOnce(setupOk: bool, events: seq<Event>, port: nat)
    ensures var t := Session(setupOk, events, port);
      var once := if t.next.phase == Closed then 1 else 0;
      Count(t.actions, MarkClosed) == once && Count(t.actions, Deregister) == once
  {
    var t := Session(setupOk, events, port);
    var pre := SessionShape(setupOk, events, port);
    CountAbsent(pre, MarkClosed);
    CountAbsent(pre, Deregister);
    if t.next.phase == Closed {
      var cl := Cleanup(t.next).actions;
      CountAppend(pre, cl, MarkClosed);
      CountAppend(pre, cl, Deregister);
      CleanupObserved(t.next);
    } else {
      assert pre + [] == pre;
      assert t.actions == pre;
    }
  }

  /** The leave notice is the one broadcast the leaving client never sees:
      closed is set just before it, so the client's own inbox holds every
      message sent but that last one. */
  lemma LeaverMissesOwnNotice(setupOk: bool, events: seq<Event>, port: nat)
    requires Session(setupOk, events, port).next.phase == Closed
    ensures var t := Session(setupOk, events, port);
      && Broadcasts(t.actions) == Broadcasts(t.actions[..|t.actions| - 3]) + [Left(t.next.name)]
      && SelfInbox(t.actions) == Sent(t.actions[..|t.actions| - 3])
  {
    var t := Session(setupOk, events, port);
    var pre := SessionShape(setupOk, events, port);
    var cl := Cleanup(t.next).actions;
    assert t.actions[..|t.actions| - 3] == pre;
    BroadcastsAppend(pre, cl);
    SelfInboxAppend(pre, cl);
    CleanupObserved(t.next);
  }
}
