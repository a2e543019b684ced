/** The worker socket: buffered message delivery and single-use tokens
    (src/worker/rpc-server.ts). */
module WorkerRpc {
  import opened Wrappers

  // --------------------------------------------------------------- connection

  type Message = nat
  type Listener = nat

  /** A message handed to a listener, whether the listener then throws or not. */
  datatype Delivery = Delivery(listener: Listener, message: Message)

  /** `stream` is what was decoded so far, `log` what listeners were handed, `errors` how
      many errors were emitted. */
  datatype Conn = Conn(listeners: seq<Listener>, buffer: seq<Message>, log: seq<Delivery>, stream: seq<Message>, errors: nat)

  /** None is a frame that does not decode. */
  datatype Action = Arrives(frame: Option<Message>) | Listen(listener: Listener) | Unlisten(listener: Listener)

  type Throws = Delivery -> bool

  /** The loop over the listeners ends at the first that throws. */
  function Handed(listeners: seq<Listener>, m: Message, throws: Throws): seq<Delivery> {
    if listeners == [] then []
    else
      var d := Delivery(listeners[0], m);
      [d] + (if throws(d) then [] else Handed(listeners[1..], m, throws))
  }

  predicate SomeThrows(log: seq<Delivery>, throws: Throws) {
    exists i | 0 <= i < |log| :: throws(log[i])
  }

  /** Handing the buffer to a new listener also ends at its first throw. */
  function Flushed(l: Listener, buffer: seq<Message>, throws: Throws): seq<Delivery> {
    if buffer == [] then []
    else
      var d := Delivery(l, buffer[0]);
      [d] + (if throws(d) then [] else Flushed(l, buffer[1..], throws))
  }

  function Removed(listeners: seq<Listener>, l: Listener): (r: seq<Listener>)
    ensures forall x :: x in r <==> x in listeners && x != l
  {
    if listeners == [] then [] else (if listeners[0] == l then [] else [listeners[0]]) + Removed(listeners[1..], l)
  }

  function Act(c: Conn, a: Action, throws: Throws): Conn {
    match a
    case Arrives(None) => c.(errors := c.errors + 1)
    case Arrives(Some(m)) =>
      if c.listeners == [] then c.(stream := c.stream + [m], buffer := c.buffer + [m])
      else
        var handed := Handed(c.listeners, m, throws);
        c.(stream := c.stream + [m], log := c.log + handed, errors := c.errors + if SomeThrows(handed, throws) then 1 else 0)
    case Listen(l) =>
      c.(listeners := if l in c.listeners then c.listeners else c.listeners + [l],
         buffer := [], log := c.log + Flushed(l, c.buffer, throws))
    case Unlisten(l) => c.(listeners := Removed(c.listeners, l))
  }

  function ActAll(c: Conn, actions: seq<Action>, throws: Throws): Conn
    decreases |actions|
  {
    if actions == [] then c else ActAll(Act(c, actions[0], throws), actions[1..], throws)
  }

  function Messages(log: seq<Delivery>): (r: seq<Message>)
    ensures |r| == |log| && forall i | 0 <= i < |r| :: r[i] == log[i].message
  {
    seq(|log|, i requires 0 <= i < |log| => log[i].message)
  }

  /** A message that arrives is handed to the listeners in the order they were attached, up to
      and including the first that throws. */
  lemma {:induction false} HandedUpToTheFirstThrow(listeners: seq<Listener>, m: Message, throws: Throws)
    ensures var handed := Handed(listeners, m, throws);
      && |handed| <= |listeners| && (forall i | 0 <= i < |handed| :: handed[i] == Delivery(listeners[i], m))
      && (forall i | 0 <= i < |handed| - 1 :: !throws(handed[i]))
      && (|handed| == |listeners| || (handed != [] && throws(handed[|handed| - 1])))
  {
    if listeners != [] {
      HandedUpToTheFirstThrow(listeners[1..], m, throws);
    }
  }

  /** An error is emitted exactly for a frame that does not decode and for a message on which a
      listener throws as it arrives; what escapes from attaching a listener is not emitted. */
  lemma EmitsAnErrorExactly(c: Conn, a: Action, throws: Throws)
    ensures var after := Act(c, a, throws);
      && c.log <= after.log
      && (after.errors == c.errors || after.errors == c.errors + 1)
      && (after.errors == c.errors + 1 <==>
            a == Arrives(None) || (a.Arrives? && |after.log| > |c.log| && throws(after.log[|after.log| - 1])))
  {
    match a
    case Arrives(Some(m)) =>
      HandedUpToTheFirstThrow(c.listeners, m, throws);
      var handed := Handed(c.listeners, m, throws);
      assert c.listeners != [] ==> (c.log + handed)[|c.log| + |handed| - 1] == handed[|handed| - 1];
    case _ =>
  }

  /** The messages of the frames that decode. */
  function Decoded(actions: seq<Action>): seq<Message> {
    if actions == [] then []
    else (if actions[0].Arrives? && actions[0].frame.Some? then [actions[0].frame.value] else []) + Decoded(actions[1..])
  }

  lemma {:induction false} StreamIsWhatArrived(c: Conn, actions: seq<Action>, throws: Throws)
    ensures ActAll(c, actions, throws).stream == c.stream + Decoded(actions)
    decreases |actions|
  {
    if actions != [] {
      StreamIsWhatArrived(Act(c, actions[0], throws), actions[1..], throws);
    }
  }

  /** Who listens after an action: whoever was attached and not yet detached, nobody twice. */
  lemma ListensExactly(c: Conn, a: Action, throws: Throws, l: Listener)
    ensures var after := Act(c, a, throws);
      && (l in after.listeners <==> a == Listen(l) || (l in c.listeners && a != Unlisten(l)))
      && (l !in after.listeners ==> forall m :: Delivery(l, m) !in Handed(after.listeners, m, throws))
  {
    var after := Act(c, a, throws);
    forall m | l !in after.listeners
      ensures Delivery(l, m) !in Handed(after.listeners, m, throws)
    {
      HandedUpToTheFirstThrow(after.listeners, m, throws);
    }
  }

  /** A listener is attached only while no other one is. */
  predicate OneAtATime(c: Conn, a: Action) {
    a.Listen? ==> c.listeners == [] || c.listeners == [a.listener]
  }

  /** The new listener throws on no buffered message but possibly the last. */
  predicate FlushesAll(c: Conn, a: Action, throws: Throws) {
    a.Listen? ==> NoEarlyThrow(a.listener, c.buffer, throws)
  }

  /** Over the run a listener is attached only while no other one is. */
  predicate OneListener(c: Conn, actions: seq<Action>, throws: Throws)
    decreases |actions|
  {
    actions == [] || (OneAtATime(c, actions[0]) && OneListener(Act(c, actions[0], throws), actions[1..], throws))
  }

  /** Over the run every attachment is handed the whole buffer. */
  predicate AllFlushed(c: Conn, actions: seq<Action>, throws: Throws)
    decreases |actions|
  {
    actions == [] || (FlushesAll(c, actions[0], throws) && AllFlushed(Act(c, actions[0], throws), actions[1..], throws))
  }

  /** What listeners were handed, followed by the buffer, is the decoded stream; with a
      listener attached nothing is buffered. */
  predicate InOrder(c: Conn) {
    && |c.listeners| <= 1
    && Messages(c.log) + c.buffer == c.stream
    && (c.listeners != [] ==> c.buffer == [])
  }

  predicate NoEarlyThrow(l: Listener, buffer: seq<Message>, throws: Throws) {
    forall i | 0 <= i < |buffer| - 1 :: !throws(Delivery(l, buffer[i]))
  }

  lemma NoEarlyThrowFrom(l: Listener, buffer: seq<Message>, throws: Throws)
    requires |buffer| > 1
    ensures NoEarlyThrow(l, buffer, throws) <==> !throws(Delivery(l, buffer[0])) && NoEarlyThrow(l, buffer[1..], throws)
  {
    var rest := buffer[1..];
    assert forall i | 1 <= i < |buffer| - 1 :: buffer[i] == rest[i - 1];
    if NoEarlyThrow(l, buffer, throws) {
      forall i | 0 <= i < |rest| - 1
        ensures !throws(Delivery(l, rest[i]))
      {
        assert rest[i] == buffer[i + 1];
      }
    }
  }

  lemma {:induction false} FlushHandsAll(l: Listener, buffer: seq<Message>, throws: Throws)
    ensures var flushed := Messages(Flushed(l, buffer, throws));
      flushed <= buffer && (flushed == buffer <==> NoEarlyThrow(l, buffer, throws))
  {
    hide NoEarlyThrow, Messages;
    var none: seq<Delivery> := [];
    if buffer == [] {
      ShortBuffer(l, buffer, throws);
    } else {
      var d, rest := Delivery(l, buffer[0]), buffer[1..];
      FlushHandsAll(l, rest, throws);
      MessagesAppend([d], if throws(d) then none else Flushed(l, rest, throws));
      if |buffer| > 1 {
        NoEarlyThrowFrom(l, buffer, throws);
      } else {
        ShortBuffer(l, buffer, throws);
        assert rest == [];
      }
      assert Messages([d]) == [buffer[0]] && Messages(none) == [];
      assert buffer == [buffer[0]] + rest;
    }
  }

  lemma ShortBuffer(l: Listener, buffer: seq<Message>, throws: Throws)
    requires |buffer| <= 1
    ensures NoEarlyThrow(l, buffer, throws)
  {
  }

  lemma MessagesAppend(a: seq<Delivery>, b: seq<Delivery>)
    ensures Messages(a + b) == Messages(a) + Messages(b)
  {
  }

  lemma ActKeepsOrder(c: Conn, a: Action, throws: Throws)
    requires InOrder(c) && OneAtATime(c, a)
    ensures var after := Act(c, a, throws); InOrder(after) <==> FlushesAll(c, a, throws)
  {
    hide Messages;
    match a {
      case Arrives(None) =>
      case Arrives(Some(m)) =>
        if c.listeners == [] {
          assert Messages(c.log) + (c.buffer + [m]) == Messages(c.log) + c.buffer + [m];
        } else {
          OneHanded(c.listeners, m, throws);
          MessagesAppend(c.log, Handed(c.listeners, m, throws));
          assert Messages(c.log) + [m] + [] == Messages(c.log) + [] + [m];
        }
      case Listen(l) =>
        FlushHandsAll(l, c.buffer, throws);
        var flushed := Flushed(l, c.buffer, throws);
        MessagesAppend(c.log, flushed);
        assert Messages(c.log) + Messages(flushed) + [] == Messages(c.log) + Messages(flushed);
        SamePrefix(Messages(c.log), Messages(flushed), c.buffer);
      case Unlisten(l) =>
        NoneAdded(c.listeners, l);
    }
  }

  lemma SamePrefix<T>(a: seq<T>, b: seq<T>, c: seq<T>)
    ensures a + b == a + c <==> b == c
  {
    if a + b == a + c {
      assert b == (a + b)[|a|..] == (a + c)[|a|..] == c;
    }
  }

  lemma OneHanded(listeners: seq<Listener>, m: Message, throws: Throws)
    requires |listeners| == 1
    ensures Messages(Handed(listeners, m, throws)) == [m]
  {
    assert listeners[1..] == [];
  }

  lemma {:induction false} NoneAdded(listeners: seq<Listener>, l: Listener)
    ensures |Removed(listeners, l)| <= |listeners|
  {
    if listeners != [] {
      NoneAdded(listeners[1..], l);
    }
  }

  /** Messages are missing: fewer were handed over or buffered than decoded. */
  predicate Missing(c: Conn) {
    |c.listeners| <= 1 && |c.log| + |c.buffer| < |c.stream|
  }

  lemma MissingStays(c: Conn, a: Action, throws: Throws)
    requires Missing(c) && OneAtATime(c, a)
    ensures Missing(Act(c, a, throws))
  {
    match a {
      case Arrives(None) =>
      case Arrives(Some(m)) =>
        if c.listeners != [] {
          OneHanded(c.listeners, m, throws);
          assert |Handed(c.listeners, m, throws)| == 1;
        }
      case Listen(l) => FlushHandsAll(l, c.buffer, throws);
      case Unlisten(l) => NoneAdded(c.listeners, l);
    }
  }

  lemma LossyFlush(c: Conn, a: Action, throws: Throws)
    requires InOrder(c) && OneAtATime(c, a) && !FlushesAll(c, a, throws)
    ensures Missing(Act(c, a, throws))
  {
    FlushHandsAll(a.listener, c.buffer, throws);
    var flushed := Messages(Flushed(a.listener, c.buffer, throws));
    assert |flushed| < |c.buffer|;
    assert |Messages(c.log) + c.buffer| == |c.log| + |c.buffer|;
  }

  lemma {:induction false} MissingForever(c: Conn, actions: seq<Action>, throws: Throws)
    requires Missing(c) && OneListener(c, actions, throws)
    ensures !InOrder(ActAll(c, actions, throws))
    decreases |actions|
  {
    hide Act, Missing, OneAtATime;
    if actions == [] {
      MissingIsOutOfOrder(c);
    } else {
      MissingStays(c, actions[0], throws);
      MissingForever(Act(c, actions[0], throws), actions[1..], throws);
    }
  }

  lemma MissingIsOutOfOrder(c: Conn)
    requires Missing(c)
    ensures !InOrder(c)
  {
    assert |Messages(c.log) + c.buffer| == |c.log| + |c.buffer|;
  }

  /** Over every order of frames, attachments and detachments with one listener at a time,
      what listeners received and the buffer make up the stream exactly when every attachment
      was handed its whole buffer: nothing else loses, repeats or reorders a message, and
      what was lost stays lost. */
  lemma {:induction false} DeliveryIsInOrder(c: Conn, actions: seq<Action>, throws: Throws)
    requires InOrder(c) && OneListener(c, actions, throws)
    ensures InOrder(ActAll(c, actions, throws)) <==> AllFlushed(c, actions, throws)
    decreases |actions|
  {
    hide Act, InOrder, OneAtATime, FlushesAll, Missing;
    if actions != [] {
      ActKeepsOrder(c, actions[0], throws);
      if FlushesAll(c, actions[0], throws) {
        DeliveryIsInOrder(Act(c, actions[0], throws), actions[1..], throws);
      } else {
        LossyFlush(c, actions[0], throws);
        MissingForever(Act(c, actions[0], throws), actions[1..], throws);
      }
    }
  }

  /** A listener that throws on the first of two buffered messages loses the second. */
  lemma ThrowingListenerLosesTheRest(l: Listener, first: Message, second: Message)
    ensures var throws := (d: Delivery) => d.message == first;
      var c := ActAll(Conn([], [], [], [], 0), [Arrives(Some(first)), Arrives(Some(second)), Listen(l)], throws);
      c.log == [Delivery(l, first)] && c.buffer == [] && c.stream == [first, second] && !InOrder(c)
  {
    var throws := (d: Delivery) => d.message == first;
    var c0 := Conn([], [], [], [], 0);
    var a0, a1, a2 := Arrives(Some(first)), Arrives(Some(second)), Listen(l);
    assert [a0, a1, a2][1..] == [a1, a2] && [a1, a2][1..] == [a2];
    var none: seq<Action> := [a2][1..];
    assert none == [] && forall c :: ActAll(c, none, throws) == c;
    var c1 := Act(c0, a0, throws);
    var c2 := Act(c1, a1, throws);
    assert c2.buffer == [first, second];
    var c3 := Act(c2, a2, throws);
    assert ActAll(c2, [a2], throws) == ActAll(c3, none, throws);
    assert ActAll(c1, [a1, a2], throws) == ActAll(c2, [a2], throws);
    assert ActAll(c0, [a0, a1, a2], throws) == ActAll(c1, [a1, a2], throws);
    assert Flushed(l, c2.buffer, throws) == [Delivery(l, first)];
    assert |Messages(c3.log) + c3.buffer| == 1;
  }

  class Connection {
    var listeners: seq<Listener>
    var buffer: seq<Message>
    ghost var log: seq<Delivery>
    ghost var stream: seq<Message>
    ghost var errors: nat

    constructor ()
      ensures View() == Conn([], [], [], [], 0)
    {
      listeners, buffer, log, stream, errors := [], [], [], [], 0;
    }

    ghost function View(): Conn
      reads this
    {
      Conn(listeners, buffer, log, stream, errors)
    }

    method EmitError()
      modifies this`errors
      ensures errors == old(errors) + 1
    {
      errors := errors + 1;
    }

    /** The handler of the socket's `message` event. */
    method Receive(frame: Option<Message>, throws: Throws)
      modifies this`buffer, this`log, this`stream, this`errors
      ensures View() == Act(old(View()), Arrives(frame), throws)
    {
      hide Handed, SomeThrows;
      if frame.None? {
        EmitError();
        return;
      }
      var m := frame.value;
      stream := stream + [m];
      if listeners == [] {
        buffer := buffer + [m];
        return;
      }
      var i, threw := 0, false;
      ghost var handed: seq<Delivery> := [];
      assert listeners[0..] == listeners && [] + Handed(listeners, m, throws) == Handed(listeners, m, throws);
      NoneThrew(throws);
      while i < |listeners| && !threw
        invariant 0 <= i <= |listeners|
        invariant Handed(listeners, m, throws) == if threw then handed else handed + Handed(listeners[i..], m, throws)
        invariant log == old(log) + handed && threw == SomeThrows(handed, throws)
        invariant buffer == old(buffer) && stream == old(stream) + [m] && errors == old(errors)
        decreases |listeners| - i, !threw
      {
        var d := Delivery(listeners[i], m);
        HandedStep(handed, listeners, i, m, throws);
        OneMore(handed, d, throws);
        log := log + [d];
        handed := handed + [d];
        threw := throws(d);
        i := i + 1;
      }
      if !threw {
        assert listeners[i..] == [];
        HandedEnd(m, throws);
        assert handed + [] == handed;
      }
      assert Handed(listeners, m, throws) == handed;
      if threw {
        EmitError();
      }
    }

    /** `onMessage`; false when the listener's throw escapes it. */
    method OnMessage(l: Listener, throws: Throws) returns (ok: bool)
      modifies this`listeners, this`buffer, this`log
      ensures View() == Act(old(View()), Listen(l), throws)
      ensures ok == !SomeThrows(Flushed(l, old(buffer), throws), throws)
    {
      hide Flushed, SomeThrows;
      if l !in listeners {
        listeners := listeners + [l];
      }
      var spliced := buffer;
      buffer := [];
      ghost var attached := listeners;
      ok := true;
      var i := 0;
      ghost var handed: seq<Delivery> := [];
      assert spliced[0..] == spliced && [] + Flushed(l, spliced, throws) == Flushed(l, spliced, throws);
      NoneThrew(throws);
      while i < |spliced| && ok
        invariant 0 <= i <= |spliced|
        invariant Flushed(l, spliced, throws) == if ok then handed + Flushed(l, spliced[i..], throws) else handed
        invariant log == old(log) + handed && ok == !SomeThrows(handed, throws)
        invariant buffer == [] && listeners == attached
        decreases |spliced| - i, ok
      {
        var d := Delivery(l, spliced[i]);
        FlushedStep(handed, l, spliced, i, throws);
        OneMore(handed, d, throws);
        log := log + [d];
        handed := handed + [d];
        ok := !throws(d);
        i := i + 1;
      }
      if ok {
        assert spliced[i..] == [];
        FlushedEnd(l, throws);
        assert handed + [] == handed;
      }
      assert Flushed(l, spliced, throws) == handed;
    }

    /** The function `onMessage` returns. */
    method Unsubscribe(l: Listener)
      modifies this`listeners
      ensures forall throws: Throws {:trigger Act(old(View()), Unlisten(l), throws)} :: View() == Act(old(View()), Unlisten(l), throws)
    {
      listeners := Removed(listeners, l);
    }
  }

  lemma HandedStep(handed: seq<Delivery>, listeners: seq<Listener>, i: nat, m: Message, throws: Throws)
    requires i < |listeners|
    ensures var d := Delivery(listeners[i], m);
      handed + Handed(listeners[i..], m, throws) ==
        if throws(d) then handed + [d] else handed + [d] + Handed(listeners[i + 1..], m, throws)
  {
    assert listeners[i..][0] == listeners[i] && listeners[i..][1..] == listeners[i + 1..];
  }

  lemma FlushedStep(handed: seq<Delivery>, l: Listener, buffer: seq<Message>, i: nat, throws: Throws)
    requires i < |buffer|
    ensures var d := Delivery(l, buffer[i]);
      handed + Flushed(l, buffer[i..], throws) ==
        if throws(d) then handed + [d] else handed + [d] + Flushed(l, buffer[i + 1..], throws)
  {
    assert buffer[i..][0] == buffer[i] && buffer[i..][1..] == buffer[i + 1..];
  }

  lemma HandedEnd(m: Message, throws: Throws)
    ensures Handed([], m, throws) == []
  {
  }

  lemma FlushedEnd(l: Listener, throws: Throws)
    ensures Flushed(l, [], throws) == []
  {
  }

  lemma NoneThrew(throws: Throws)
    ensures !SomeThrows([], throws)
  {
  }

  lemma OneMore(log: seq<Delivery>, d: Delivery, throws: Throws)
    ensures SomeThrows(log + [d], throws) <==> SomeThrows(log, throws) || throws(d)
  {
    assert (log + [d])[|log|] == d;
    if SomeThrows(log, throws) {
      var i :| 0 <= i < |log| && throws(log[i]);
      assert throws((log + [d])[i]);
    }
  }

  // ------------------------------------------------------------------- tokens

  type Token = nat
  type ConnectionId = nat

  /** How often a promise was resolved or rejected, and the connection it got. */
  datatype Promise = Promise(resolves: nat, rejects: nat)

  /** `pending` is the map of sessions waiting for their worker, `shaking` the upgrades
      whose handshake is under way; `connections` lists every connection ever made with the
      token it used. */
  datatype Server = Server(
    pending: map<Token, string>, shaking: set<Token>, active: set<ConnectionId>,
    promises: map<Token, Promise>, connections: seq<Token>, nextToken: Token)

  datatype Event =
    | Create(sessionKey: string)
    | Upgrade(token: Option<Token>, sessionKey: string)
    | HandshakeDone(done: Token)
    | HandshakeFails(failed: Token)
    | Dispose(disposed: Token)
    | SocketCloses(id: ConnectionId)
    | CloseServer

  function Rejected(promises: map<Token, Promise>, tokens: set<Token>): (r: map<Token, Promise>)
    ensures r.Keys == promises.Keys
    ensures forall t <- promises :: r[t] == if t in tokens then promises[t].(rejects := promises[t].rejects + 1) else promises[t]
  {
    map t | t in promises :: if t in tokens then promises[t].(rejects := promises[t].rejects + 1) else promises[t]
  }

  /** The check before an upgrade is accepted. */
  predicate Accepts(s: Server, token: Option<Token>, sessionKey: string) {
    token.Some? && sessionKey != "" && token.value in s.pending && s.pending[token.value] == sessionKey
  }

  function Happen(s: Server, e: Event): Server {
    match e
    case Create(key) =>
      s.(pending := s.pending[s.nextToken := key], promises := s.promises[s.nextToken := Promise(0, 0)], nextToken := s.nextToken + 1)
    case Upgrade(token, key) =>
      if !Accepts(s, token, key) then s
      else s.(pending := s.pending - {token.value}, shaking := s.shaking + {token.value})
    case HandshakeDone(t) =>
      if t !in s.shaking || t !in s.promises then s
      else
        s.(shaking := s.shaking - {t}, active := s.active + {|s.connections|}, connections := s.connections + [t],
           promises := s.promises[t := s.promises[t].(resolves := s.promises[t].resolves + 1)])
    case HandshakeFails(t) => s.(shaking := s.shaking - {t})
    case Dispose(t) =>
      if t !in s.pending then s else s.(pending := s.pending - {t}, promises := Rejected(s.promises, {t}))
    case SocketCloses(id) => s.(active := s.active - {id})
    case CloseServer => s.(pending := map[], active := {}, promises := Rejected(s.promises, s.pending.Keys))
  }

  function HappenAll(s: Server, events: seq<Event>): Server
    decreases |events|
  {
    if events == [] then s else HappenAll(Happen(s, events[0]), events[1..])
  }

  function Fresh(): Server {
    Server(map[], {}, {}, map[], [], 0)
  }

  function Settled(s: Server, t: Token): nat
    requires t in s.promises
  {
    s.promises[t].resolves + s.promises[t].rejects
  }

  /** Every token that was handed out is waiting, shaking hands, or spent; only a waiting or
      hand-shaking one is still unsettled and without a connection for certain. */
  ghost predicate Tokens(s: Server) {
    && (forall t: Token :: t in s.promises <==> t < s.nextToken)
    && (forall t <- s.pending :: t in s.promises && t !in s.shaking && t !in s.connections && Settled(s, t) == 0)
    && (forall t <- s.shaking :: t in s.promises && t !in s.connections && Settled(s, t) == 0)
    && (forall t <- s.promises :: Settled(s, t) <= 1)
    && (forall t <- s.promises :: s.promises[t].resolves == if t in s.connections then 1 else 0)
    && (forall i | 0 <= i < |s.connections| :: s.connections[i] in s.promises)
    && (forall i, j | 0 <= i < j < |s.connections| :: s.connections[i] != s.connections[j])
  }

  lemma HandshakeKeepsTokens(s: Server, t: Token)
    requires Tokens(s)
    ensures Tokens(Happen(s, HandshakeDone(t)))
  {
    if t in s.shaking {
      var after := Happen(s, HandshakeDone(t));
      assert forall x :: x in after.connections <==> x in s.connections || x == t;
    }
  }

  lemma RejectingKeepsTokens(s: Server, tokens: set<Token>, active: set<ConnectionId>)
    requires Tokens(s) && tokens <= s.pending.Keys
    ensures Tokens(s.(pending := s.pending - tokens, active := active, promises := Rejected(s.promises, tokens)))
  {
  }

  lemma OpeningKeepsTokens(s: Server, e: Event)
    requires Tokens(s) && (e.Create? || e.Upgrade? || e.HandshakeFails? || e.SocketCloses?)
    ensures Tokens(Happen(s, e))
  {
  }

  lemma HappenKeepsTokens(s: Server, e: Event)
    requires Tokens(s)
    ensures Tokens(Happen(s, e))
  {
    hide Settled;
    match e {
      case HandshakeDone(t) => HandshakeKeepsTokens(s, t);
      case Dispose(t) =>
        if t in s.pending {
          RejectingKeepsTokens(s, {t}, s.active);
        }
      case CloseServer =>
        RejectingKeepsTokens(s, s.pending.Keys, {});
        assert s.pending - s.pending.Keys == map[];
      case _ => OpeningKeepsTokens(s, e);
    }
  }

  /** A token that is handed out, presented with its session key and shaken hands on becomes a
      connection, and its promise is resolved with it, whatever others happened before. */
  lemma ConnectsWhenAsked(s: Server, key: string)
    requires Tokens(s) && key != ""
    ensures var t, id := s.nextToken, |s.connections|;
      var created := Happen(s, Create(key));
      var taken := Happen(created, Upgrade(Some(t), key));
      var open := Happen(taken, HandshakeDone(t));
      && t !in s.promises && t in created.pending && created.pending[t] == key && Settled(created, t) == 0
      && t !in taken.pending && t in taken.shaking
      && open.connections == s.connections + [t] && id in open.active && open.promises[t] == Promise(1, 0)
  {
  }

  /** A connection is active from its handshake until its socket or the server closes. */
  lemma ActiveExactly(s: Server, e: Event, id: ConnectionId)
    requires Tokens(s)
    ensures id in Happen(s, e).active <==>
      || (id in s.active && e != SocketCloses(id) && !e.CloseServer?)
      || (id == |s.connections| && |Happen(s, e).connections| == |s.connections| + 1)
  {
    if e.HandshakeDone? && e.done in s.shaking {
      ShakingIsKnown(s, e.done);
    }
  }

  lemma ShakingIsKnown(s: Server, t: Token)
    requires Tokens(s) && t in s.shaking
    ensures t in s.promises
  {
  }

  /** Over every order of creations, upgrades, handshakes, disposals and closing, a token
      makes at most one connection, its promise is settled at most once, and it is resolved
      exactly when the connection was made. */
  lemma {:induction false} TokensAreSingleUse(s: Server, events: seq<Event>)
    requires Tokens(s)
    ensures Tokens(HappenAll(s, events))
    decreases |events|
  {
    hide Tokens, Happen;
    if events != [] {
      HappenKeepsTokens(s, events[0]);
      TokensAreSingleUse(Happen(s, events[0]), events[1..]);
    }
  }

  /** The token was used up without a connection and can never be settled. */
  predicate Abandoned(s: Server, t: Token) {
    t in s.promises && t !in s.pending && t !in s.shaking && Settled(s, t) == 0
  }

  /** A handshake that fails after the upgrade was accepted spends the token: whatever
      happens later, disposal included, the promise stays unsettled and no connection comes. */
  lemma {:induction false} FailedHandshakeStrandsTheWaiter(s: Server, t: Token, events: seq<Event>)
    requires Tokens(s) && Abandoned(s, t)
    ensures Abandoned(HappenAll(s, events), t) && t !in HappenAll(s, events).connections
    decreases |events|
  {
    hide Tokens, Abandoned, Happen;
    if events == [] {
      AbandonedHasNoConnection(s, t);
    } else {
      AbandonedStays(s, t, events[0]);
      HappenKeepsTokens(s, events[0]);
      FailedHandshakeStrandsTheWaiter(Happen(s, events[0]), t, events[1..]);
    }
  }

  lemma AbandonedHasNoConnection(s: Server, t: Token)
    requires Tokens(s) && Abandoned(s, t)
    ensures t !in s.connections
  {
  }

  lemma AbandonedStays(s: Server, t: Token, e: Event)
    requires Tokens(s) && Abandoned(s, t)
    ensures Abandoned(Happen(s, e), t)
  {
  }

  /** How a waiting token ends: disposing or closing rejects it at once, an accepted upgrade
      decides it by the handshake, and nothing else touches it. */
  lemma WaitingTokenEnds(s: Server, t: Token, key: string)
    requires Tokens(s) && t in s.pending
    ensures Settled(Happen(s, Dispose(t)), t) == 1 && Settled(Happen(s, CloseServer), t) == 1
    ensures var u := Happen(s, Upgrade(Some(t), key));
      if key != "" && key == s.pending[t] then
        && Settled(u, t) == 0 && Happen(u, HandshakeDone(t)).promises[t] == Promise(1, 0)
        && Abandoned(Happen(u, HandshakeFails(t)), t)
        && Settled(Happen(u, Dispose(t)), t) == 0
      else u == s
  {
  }

  class RpcServer {
    var pendingSessions: map<Token, string>
    var activeConnections: set<ConnectionId>
    var nextToken: Token
    var shaking: set<Token>
    ghost var promises: map<Token, Promise>
    ghost var connections: seq<Token>
    var connectionCount: nat

    ghost predicate Valid()
      reads this
    {
      Tokens(View()) && connectionCount == |connections|
    }

    ghost function View(): Server
      reads this
    {
      Server(pendingSessions, shaking, activeConnections, promises, connections, nextToken)
    }

    constructor ()
      ensures Valid() && View() == Fresh()
    {
      pendingSessions, activeConnections, nextToken, shaking := map[], {}, 0, {};
      promises, connections, connectionCount := map[], [], 0;
    }

    method CreatePendingConnection(sessionKey: string) returns (token: Token)
      requires Valid()
      modifies this
      ensures Valid() && View() == Happen(old(View()), Create(sessionKey)) && token == old(nextToken)
    {
      hide Tokens;
      HappenKeepsTokens(View(), Create(sessionKey));
      token := nextToken;
      pendingSessions := pendingSessions[token := sessionKey];
      promises := promises[token := Promise(0, 0)];
      nextToken := nextToken + 1;
    }

    /** The `upgrade` event; false is the 401 answer. */
    method OnUpgrade(token: Option<Token>, sessionKey: string) returns (accepted: bool)
      requires Valid()
      modifies this
      ensures Valid() && View() == Happen(old(View()), Upgrade(token, sessionKey))
      ensures accepted <==> Accepts(old(View()), token, sessionKey)
    {
      hide Tokens;
      HappenKeepsTokens(View(), Upgrade(token, sessionKey));
      if token.None? || sessionKey == "" || token.value !in pendingSessions || pendingSessions[token.value] != sessionKey {
        return false;
      }
      pendingSessions := pendingSessions - {token.value};
      shaking := shaking + {token.value};
      return true;
    }

    /** The callback of `handleUpgrade`. */
    method OnHandshake(token: Token) returns (id: ConnectionId)
      requires Valid() && token in shaking
      modifies this
      ensures Valid() && View() == Happen(old(View()), HandshakeDone(token)) && id == old(connectionCount)
    {
      hide Tokens;
      HappenKeepsTokens(View(), HandshakeDone(token));
      ShakingIsKnown(View(), token);
      id := connectionCount;
      shaking := shaking - {token};
      activeConnections := activeConnections + {id};
      connections := connections + [token];
      connectionCount := connectionCount + 1;
      promises := promises[token := promises[token].(resolves := promises[token].resolves + 1)];
    }

    method DisposePending(token: Token)
      requires Valid()
      modifies this
      ensures Valid() && View() == Happen(old(View()), Dispose(token))
    {
      hide Tokens;
      HappenKeepsTokens(View(), Dispose(token));
      if token !in pendingSessions {
        return;
      }
      pendingSessions := pendingSessions - {token};
      promises := Rejected(promises, {token});
    }

    method Close()
      requires Valid()
      modifies this
      ensures Valid() && View() == Happen(old(View()), CloseServer)
    {
      hide Tokens;
      HappenKeepsTokens(View(), CloseServer);
      promises := Rejected(promises, pendingSessions.Keys);
      pendingSessions := map[];
      activeConnections := {};
    }
  }
}
