/** The per-connection chat protocol of ClientHandler.run and cleanup, as a
    state machine over what the client's line reader delivers. The machine
    emits actions; the server classes carry them out on the registry. */
module Protocol {
  import opened Text

  // ---------------------------------------------------------------------
  // Messages and their wire texts

  /** The name a handler carries before the client has named itself. */
  const InitialName: string := "Unknown"

  function FallbackName(port: nat): string {
    "Guest-" + NatToString(port)
  }

  /** The lines the server writes to clients. Welcome and Greeting go to the
      connecting client only; the others are broadcast. */
  datatype Message =
    | Welcome
    | Greeting(name: string)
    | Joined(name: string)
    | Chat(name: string, line: string)
    | Left(name: string)

  /** The text of a message as written on the wire. */
  function Render(m: Message): string
  {
    match m
    case Welcome => "Welcome! Please enter your name:"
    case Greeting(name) => "Hi " + name + "! Type messages to chat. Type /quit to exit."
    case Joined(name) => name + " has joined the chat."
    case Chat(name, line) => name + ": " + line
    case Left(name) => name + " has left the chat."
  }

  /** Each notice and chat line begins with the name it is about, the
      greeting addresses the client by name, and the join and leave notices
      for one name are different lines. */
  lemma RenderShape(m: Message)
    ensures (m.Joined? || m.Chat? || m.Left?) ==> Render(m)[..|m.name|] == m.name
    ensures m.Greeting? ==> Render(m)[..3 + |m.name|] == "Hi " + m.name
    ensures m.Joined? ==> Render(m) != Render(Left(m.name))
  {
    if m.Joined? {
      assert |Render(m)| != |Render(Left(m.name))|;
    }
  }

  /** The fallback name is never blank, is already trimmed, and differs for
      different ports. */
  lemma FallbackNameShape(port: nat, other: nat)
    ensures !IsBlank(FallbackName(port))
    ensures Trim(FallbackName(port)) == FallbackName(port)
    ensures other != port ==> FallbackName(other) != FallbackName(port)
  {
    var f := FallbackName(port);
    NatToStringShape(port);
    assert f[0] == 'G';
    assert IsDigit(f[|f| - 1]);
    TrimmedIsFixed(f);
    if other != port {
      var g := FallbackName(other);
      if g == f {
        assert NatToString(other) == g[6..] == f[6..] == NatToString(port);
        NatToStringRoundTrip(other);
        NatToStringRoundTrip(port);
      }
    }
  }

  // ---------------------------------------------------------------------
  // The state machine

  /** What one read of the client's line reader yields. */
  datatype Event = Line(text: string) | EndOfStream | ReadError

  datatype Phase = Handshake | Active | Closed

  datatype Conn = Conn(phase: Phase, name: string)

  /** Reply goes to this client only; Broadcast goes through the registry;
      MarkClosed sets the handler's closed flag; Deregister removes the
      handler from the registry. */
  datatype Action = Reply(msg: Message) | Broadcast(msg: Message) | MarkClosed | Deregister

  datatype Transition = Transition(next: Conn, actions: seq<Action>)

  /** The display name chosen from the first line read (None at end of
      stream): the line, or the port's fallback when the line trims to
      nothing, and then trimmed. */
  function ChooseName(first: Option<string>, port: nat): string {
    var name := if first.None? || Trim(first.value) == [] then FallbackName(port) else first.value;
    Trim(name)
  }

  /** The chosen name is the trimmed line, or the fallback when there is no
      line or it is blank; either way it is never blank. */
  lemma ChooseNameShape(first: Option<string>, port: nat)
    ensures var r := ChooseName(first, port);
      && (first.None? || IsBlank(first.value) ==> r == FallbackName(port))
      && (first.Some? && !IsBlank(first.value) ==> r == Trim(first.value))
      && !IsBlank(r)
  {
    FallbackNameShape(port, port);
    if first.Some? {
      TrimShape(first.value);
      TrimShape(Trim(first.value));
      TrimIdempotent(first.value);
    }
  }

  datatype Option<T> = None | Some(value: T)

  /** cleanup: closed is set, the leave notice under the current name is
      broadcast, and the handler is deregistered. */
  function Cleanup(c: Conn): Transition {
    Transition(Conn(Closed, c.name), [MarkClosed, Broadcast(Left(c.name)), Deregister])
  }

  /** Opening the reader and writer, then the welcome prompt; a failure while
      opening goes straight to cleanup under the initial name. */
  function Open(setupOk: bool): Transition {
    var c := Conn(Handshake, InitialName);
    if setupOk then Transition(c, [Reply(Welcome)]) else Cleanup(c)
  }

  /** One read of the client's reader in a phase that still reads. */
  function Step(c: Conn, e: Event, port: nat): Transition
    requires c.phase != Closed
  {
    match c.phase
    case Handshake =>
      (match e
       case ReadError => Cleanup(c)
       case Line(s) =>
         var name := ChooseName(Some(s), port);
         Transition(Conn(Active, name), [Reply(Greeting(name)), Broadcast(Joined(name))])
       case EndOfStream =>
         // The chat loop's first read hits the same end of stream.
         var name := ChooseName(None, port);
         var t := Cleanup(Conn(Active, name));
         Transition(t.next, [Reply(Greeting(name)), Broadcast(Joined(name))] + t.actions))
    case Active =>
      (match e
       case Line(s) =>
         var line := Trim(s);
         if IsQuit(line) then Cleanup(c)
         else if line == [] then Transition(c, [])
         else Transition(c, [Broadcast(Chat(c.name, line))])
       case _ => Cleanup(c))
  }

  /** Feeds events to the machine until it closes; events after that are
      never read. Running out of events leaves the session waiting. */
  function Run(c: Conn, events: seq<Event>, port: nat): Transition
    decreases |events|
  {
    if c.phase == Closed || events == [] then Transition(c, [])
    else
      var t := Step(c, events[0], port);
      var rest := Run(t.next, events[1..], port);
      Transition(rest.next, t.actions + rest.actions)
  }

  /** Run reads the first event, then the rest from where that leads. */
  lemma RunCons(c: Conn, e: Event, rest: seq<Event>, port: nat)
    requires c.phase != Closed
    ensures var step := Step(c, e, port);
      var r := Run(step.next, rest, port);
      Run(c, [e] + rest, port) == Transition(r.next, step.actions + r.actions)
  {
    assert ([e] + rest)[0] == e;
    assert ([e] + rest)[1..] == rest;
  }

  /** A whole connection: opening, then every read. */
  function Session(setupOk: bool, events: seq<Event>, port: nat): Transition {
    var o := Open(setupOk);
    var r := Run(o.next, events, port);
    Transition(r.next, o.actions + r.actions)
  }

  // ---------------------------------------------------------------------
  // What the clients observe

  /** The messages broadcast, in order: what every other open session with
      a writer receives. */
  function Broadcasts(acts: seq<Action>): seq<Message> {
    if acts == [] then []
    else (if acts[0].Broadcast? then [acts[0].msg] else []) + Broadcasts(acts[1..])
  }

  /** Replies and broadcasts, in order. */
  function Sent(acts: seq<Action>): seq<Message> {
    if acts == [] then []
    else (if acts[0].Reply? || acts[0].Broadcast? then [acts[0].msg] else []) + Sent(acts[1..])
  }

  /** What the connection's own client receives: every reply and every
      broadcast made before the handler marks itself closed. */
  function SelfInbox(acts: seq<Action>): seq<Message> {
    if acts == [] || acts[0] == MarkClosed then []
    else (if acts[0].Reply? || acts[0].Broadcast? then [acts[0].msg] else []) + SelfInbox(acts[1..])
  }

  function Count(acts: seq<Action>, a: Action): nat {
    if acts == [] then 0 else (if acts[0] == a then 1 else 0) + Count(acts[1..], a)
  }

  // ---------------------------------------------------------------------
  // Algebra of the observers

  /** Appending in two steps is appending once. */
  lemma Assoc<T>(a: seq<T>, b: seq<T>, c: seq<T>)
    ensures (a + b) + c == a + (b + c)
  {
  }

  /** The observers read an action list front to back. */
  lemma ObserveCons(a: Action, rest: seq<Action>, x: Action)
    ensures Broadcasts([a] + rest) == (if a.Broadcast? then [a.msg] else []) + Broadcasts(rest)
    ensures Sent([a] + rest) == (if a.Reply? || a.Broadcast? then [a.msg] else []) + Sent(rest)
    ensures SelfInbox([a] + rest) ==
      if a == MarkClosed then [] else (if a.Reply? || a.Broadcast? then [a.msg] else []) + SelfInbox(rest)
    ensures Count([a] + rest, x) == (if a == x then 1 else 0) + Count(rest, x)
  {
    assert ([a] + rest)[0] == a;
    assert ([a] + rest)[1..] == rest;
  }

  lemma {:induction false} BroadcastsAppend(a: seq<Action>, b: seq<Action>)
    ensures Broadcasts(a + b) == Broadcasts(a) + Broadcasts(b)
  {
    if a == [] {
      assert a + b == b;
    } else {
      var h := if a[0].Broadcast? then [a[0].msg] else [];
      assert (a + b)[0] == a[0];
      assert (a + b)[1..] == a[1..] + b;
      BroadcastsAppend(a[1..], b);
      assert Broadcasts(a + b) == h + Broadcasts(a[1..] + b);
      assert Broadcasts(a) == h + Broadcasts(a[1..]);
    }
  }

  lemma {:induction false} SentAppend(a: seq<Action>, b: seq<Action>)
    ensures Sent(a + b) == Sent(a) + Sent(b)
  {
    if a == [] {
      assert a + b == b;
    } else {
      var h := if a[0].Reply? || a[0].Broadcast? then [a[0].msg] else [];
      assert (a + b)[0] == a[0];
      assert (a + b)[1..] == a[1..] + b;
      SentAppend(a[1..], b);
      assert Sent(a + b) == h + Sent(a[1..] + b);
      assert Sent(a) == h + Sent(a[1..]);
    }
  }

  lemma {:induction false} CountAppend(a: seq<Action>, b: seq<Action>, x: Action)
    ensures Count(a + b, x) == Count(a, x) + Count(b, x)
  {
    if a == [] {
      assert a + b == b;
    } else {
      assert (a + b)[0] == a[0];
      assert (a + b)[1..] == a[1..] + b;
      CountAppend(a[1..], b, x);
    }
  }

  /** Until the handler is marked closed its own client sees everything
      sent; from then on it sees nothing more. */
  lemma {:induction false} SelfInboxAppend(a: seq<Action>, b: seq<Action>)
    ensures MarkClosed !in a ==> SelfInbox(a + b) == Sent(a) + SelfInbox(b)
    ensures MarkClosed in a ==> SelfInbox(a + b) == SelfInbox(a)
  {
    if a == [] {
      assert a + b == b;
    } else {
      var h := if a[0].Reply? || a[0].Broadcast? then [a[0].msg] else [];
      assert (a + b)[0] == a[0];
      assert (a + b)[1..] == a[1..] + b;
      SelfInboxAppend(a[1..], b);
      if a[0] != MarkClosed {
        assert SelfInbox(a + b) == h + SelfInbox(a[1..] + b);
        assert SelfInbox(a) == h + SelfInbox(a[1..]);
        assert Sent(a) == h + Sent(a[1..]);
      }
    }
  }
}
