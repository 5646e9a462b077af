/**
 Connections on one event loop: src/net/channel.cpp, src/net/tcp_connection.cpp,
 src/net/tcp_server.cpp and the epoll bookkeeping of src/net/eventloop.cpp.

 Every operation of a connection is a function from its state to a new state and the list of
 effects it had: system calls, and callbacks into the server and the application.  Event masks
 and the results of system calls are inputs.
 */
module Connections {
  import opened Options

  /** The interest set: EPOLLIN | EPOLLPRI, and EPOLLOUT. */
  datatype Events = Events(reading: bool, writing: bool)

  const NO_EVENTS := Events(false, false)

  datatype Effect =
    | CtlAdd(events: Events)
    | CtlMod(events: Events)
    | CtlDel
    | Read(got: string)      // ::read, with the bytes it returned
    | Write(sent: string)    // ::write, with the bytes it took
    | Close                  // ::close
    | Deliver(data: string)  // the message callback
    | NotifyClosed           // the close callback: TcpServer::removeConnection

  /** `open` stands for sockfd_ >= 0 and `registered` for the channel's index_ >= 0. */
  datatype Conn = Conn(open: bool, events: Events, registered: bool, removed: bool,
                       input: string, output: string)

  datatype Result = Result(conn: Conn, log: seq<Effect>)

  /** The second of two operations in a row. */
  function Then(first: Result, second: Result): Result {
    Result(second.conn, first.log + second.log)
  }

  lemma ThenAssociates(a: Result, b: Result, c: Result)
    ensures Then(Then(a, b), c) == Then(a, Then(b, c))
  {
    assert a.log + b.log + c.log == a.log + (b.log + c.log);
  }

  function Nothing(c: Conn): Result { Result(c, []) }

  // ----- Channel -----

  function Update(c: Conn): Result {
    if c.removed then Nothing(c)
    else if c.registered then Result(c, [CtlMod(c.events)])
    else Result(c.(registered := true), [CtlAdd(c.events)])
  }

  function EnableReading(c: Conn): Result {
    if c.removed then Nothing(c) else Update(c.(events := c.events.(reading := true)))
  }

  function EnableWriting(c: Conn): Result {
    if c.removed then Nothing(c) else Update(c.(events := c.events.(writing := true)))
  }

  function DisableWriting(c: Conn): Result {
    if c.removed then Nothing(c) else Update(c.(events := c.events.(writing := false)))
  }

  function DisableAll(c: Conn): Result {
    if c.removed then Nothing(c) else Update(c.(events := NO_EVENTS))
  }

  function Remove(c: Conn): Result {
    Result(c.(removed := true, registered := false), if c.registered then [CtlDel] else [])
  }

  // ----- TcpConnection -----

  function ConnectDestroyed(c: Conn): Result {
    if c.registered then var r := DisableAll(c); r.(conn := r.conn.(removed := true)) else Nothing(c)
  }

  function SendInLoop(c: Conn, message: string): Result {
    if !c.open || c.removed then Nothing(c)
    else
      var d := c.(output := c.output + message);
      if d.events.writing then Nothing(d) else EnableWriting(d)
  }

  function SendAll(c: Conn, messages: seq<string>): Result
    decreases |messages|
  {
    if messages == [] then Nothing(c)
    else
      var first := SendInLoop(c, messages[0]);
      Then(first, SendAll(first.conn, messages[1..]))
  }

  /** The server's part of a close runs inside it: `removeConnection` drops the name and, being on
      the loop's thread, calls `connectDestroyed` at once. */
  function HandleClose(c: Conn): Result {
    if !c.open then Nothing(c)
    else
      var removed := Remove(c);
      var told := Then(Result(removed.conn, removed.log + [NotifyClosed]), ConnectDestroyed(removed.conn));
      Result(told.conn.(open := false), told.log + [Close])
  }

  datatype ReadResult = Data(bytes: string) | Eof | ReadAgain | ReadError

  /** `replies` are the messages the message callback sends from the loop's thread. */
  function HandleRead(c: Conn, r: ReadResult, replies: seq<string>): Result {
    if !c.open || c.removed then Nothing(c)
    else match r
      case Data(bytes) =>
        var input := c.input + bytes;
        var sent := SendAll(c.(input := input), replies);
        Result(sent.conn.(input := ""), [Read(bytes), Deliver(input)] + sent.log)
      case ReadAgain => Result(c, [Read("")])
      case _ => Then(Result(c, [Read("")]), HandleClose(c))
  }

  /** A successful write takes as many bytes as there is room for, of those it is given. */
  datatype WriteResult = Wrote(room: nat) | WriteAgain | WriteError

  function Taken(output: string, room: nat): nat {
    if room < |output| then room else |output|
  }

  function HandleWrite(c: Conn, w: WriteResult): Result {
    if !c.open || c.removed || !c.events.writing then Nothing(c)
    else match w
      case Wrote(room) =>
        var n := Taken(c.output, room);
        if n == 0 then Then(Result(c, [Write("")]), HandleClose(c))
        else
          var d := c.(output := c.output[n..]);
          Then(Result(d, [Write(c.output[..n])]), if d.output == "" then DisableWriting(d) else Nothing(d))
      case WriteAgain => Result(c, [Write("")])
      case WriteError => Then(Result(c, [Write("")]), HandleClose(c))
  }

  /** The bits of revents_ that handleEvent looks at. */
  datatype Mask = Mask(hup: bool, input: bool, pri: bool, err: bool, rdhup: bool, output: bool)

  /** What the system calls of one dispatch return, and what the callback sends. */
  datatype Io = Io(read: ReadResult, replies: seq<string>, write: WriteResult)

  /** The two checks of handleEvent that close. */
  function Closings(c: Conn, m: Mask): Result {
    var afterHup := if m.hup && !m.input then HandleClose(c) else Nothing(c);
    if m.err || m.rdhup then Then(afterHup, HandleClose(afterHup.conn)) else afterHup
  }

  predicate Reads(m: Mask) { m.input || m.pri || m.rdhup }

  function Reading(c: Conn, m: Mask, io: Io): Result {
    if Reads(m) then HandleRead(c, io.read, io.replies) else Nothing(c)
  }

  function BeforeWrite(c: Conn, m: Mask, io: Io): Result {
    Then(Closings(c, m), Reading(Closings(c, m).conn, m, io))
  }

  function HandleEvent(c: Conn, m: Mask, io: Io): Result {
    if c.removed then Nothing(c)
    else
      var before := BeforeWrite(c, m, io);
      if m.output then Then(before, HandleWrite(before.conn, io.write)) else before
  }

  const UNCONNECTED := Conn(true, NO_EVENTS, false, false, "", "")

  /** A connection as newConnection leaves it; `greetings` is what a connection callback sends. */
  function Established(greetings: seq<string>): Result {
    var r := EnableReading(UNCONNECTED);
    Then(r, SendAll(r.conn, greetings))
  }

  // ----- the other side of the effects -----

  /**
   What the kernel, the peer and the application see of a connection: the entry of its fd in the
   interest table, whether the fd was closed, how often the server was told, the bytes that went
   each way, and whether every call so far was in order: no epoll_ctl that fails for the state of
   the table, and nothing at all after the close.
   */
  datatype Ledger = Ledger(interest: Option<Events>, closed: bool, notified: nat,
                           received: string, delivered: string, written: string, orderly: bool)

  const NEW_LEDGER := Ledger(None, false, 0, "", "", "", true)

  function Record(l: Ledger, e: Effect): Ledger {
    var inOrder := l.orderly && !l.closed;
    match e
    case CtlAdd(v) => l.(interest := Some(v), orderly := inOrder && l.interest == None)
    case CtlMod(v) => l.(interest := Some(v), orderly := inOrder && l.interest.Some?)
    case CtlDel => l.(interest := None, orderly := inOrder && l.interest.Some?)
    case Read(got) => l.(received := l.received + got, orderly := inOrder)
    case Write(sent) => l.(written := l.written + sent, orderly := inOrder)
    case Close => l.(closed := true, orderly := inOrder)
    case Deliver(data) => l.(delivered := l.delivered + data, orderly := inOrder)
    case NotifyClosed => l.(notified := l.notified + 1, orderly := inOrder)
  }

  function RecordAll(l: Ledger, log: seq<Effect>): Ledger
    decreases |log|
  {
    if log == [] then l else RecordAll(Record(l, log[0]), log[1..])
  }

  lemma {:induction false} RecordThen(l: Ledger, a: seq<Effect>, b: seq<Effect>)
    ensures RecordAll(l, a + b) == RecordAll(RecordAll(l, a), b)
    decreases |a|
  {
    if a == [] {
      assert a + b == b;
    } else {
      assert (a + b)[1..] == a[1..] + b;
      RecordThen(Record(l, a[0]), a[1..], b);
    }
  }

  lemma RecordOne(l: Ledger, e: Effect)
    ensures RecordAll(l, [e]) == Record(l, e)
    ensures RecordAll(l, []) == l
  {
    assert [e][1..] == [];
  }

  /** A connection, what was seen of it, and the messages it has taken on for sending. */
  datatype Track = Track(conn: Conn, ledger: Ledger, accepted: string)

  function Book(t: Track, r: Result, accepted: string): Track {
    Track(r.conn, RecordAll(t.ledger, r.log), t.accepted + accepted)
  }

  predicate Sendable(c: Conn) { c.open && !c.removed }

  function Joined(messages: seq<string>): string
    decreases |messages|
  {
    if messages == [] then "" else messages[0] + Joined(messages[1..])
  }

  // ----- what every operation keeps -----

  ghost predicate Inv(t: Track) {
    var c, l := t.conn, t.ledger;
    && l.orderly
    && l.closed == !c.open
    && l.notified == (if c.open then 0 else 1)
    && l.interest == (if c.registered then Some(c.events) else None)
    && c.registered == c.open
    && (!c.open ==> c.removed)
    && (c.open && c.removed ==> c.events == NO_EVENTS)
    && (c.open && !c.removed ==> c.events.reading && (c.output != "" ==> c.events.writing))
    && c.input == ""
    && l.delivered == l.received
    && l.written + c.output == t.accepted
  }

  /** EPOLLOUT is asked for exactly while there is something to write. */
  ghost predicate ArmedExactly(c: Conn) {
    c.open && !c.removed ==> (c.events.writing <==> c.output != "")
  }

  lemma CloseKeeps(t: Track)
    requires Inv(t)
    ensures Inv(Book(t, HandleClose(t.conn), "")) && !HandleClose(t.conn).conn.open
  {
    if t.conn.open {
      assert HandleClose(t.conn).log == [CtlDel, NotifyClosed, Close];
      assert [CtlDel, NotifyClosed, Close][1..] == [NotifyClosed, Close];
      assert [NotifyClosed, Close][1..] == [Close];
      RecordOne(Record(Record(t.ledger, CtlDel), NotifyClosed), Close);
    }
    assert t.accepted + "" == t.accepted;
  }

  lemma SendKeeps(t: Track, message: string)
    requires Inv(t)
    ensures Inv(Book(t, SendInLoop(t.conn, message), if Sendable(t.conn) then message else ""))
    ensures Sendable(SendInLoop(t.conn, message).conn) == Sendable(t.conn)
    ensures ArmedExactly(t.conn) && message != "" ==> ArmedExactly(SendInLoop(t.conn, message).conn)
  {
    var r := SendInLoop(t.conn, message);
    if Sendable(t.conn) && !t.conn.events.writing {
      RecordOne(t.ledger, CtlMod(r.conn.events));
      assert r.log == [CtlMod(r.conn.events)];
    }
    assert t.ledger.written + t.conn.output + message == t.ledger.written + (t.conn.output + message);
  }

  /** Two operations in a row are booked as one. */
  lemma BookThen(t: Track, first: Result, a: string, second: Result, b: string)
    ensures Book(Book(t, first, a), second, b) == Book(t, Then(first, second), a + b)
  {
    RecordThen(t.ledger, first.log, second.log);
    assert t.accepted + a + b == t.accepted + (a + b);
  }

  lemma {:induction false} SendAllKeeps(t: Track, messages: seq<string>)
    requires Inv(t)
    ensures Inv(Book(t, SendAll(t.conn, messages), if Sendable(t.conn) then Joined(messages) else ""))
    ensures ArmedExactly(t.conn) && "" !in messages ==> ArmedExactly(SendAll(t.conn, messages).conn)
    decreases |messages|
  {
    if messages == [] {
      assert t.accepted + "" == t.accepted;
    } else {
      var first := SendInLoop(t.conn, messages[0]);
      var accepted := if Sendable(t.conn) then messages[0] else "";
      var rest := SendAll(first.conn, messages[1..]);
      SendKeeps(t, messages[0]);
      SendAllKeeps(Book(t, first, accepted), messages[1..]);
      BookThen(t, first, accepted, rest, if Sendable(t.conn) then Joined(messages[1..]) else "");
    }
  }

  /** What a read makes the connection take on: the replies of the callback. */
  function Replies(c: Conn, io: Io): string {
    if Sendable(c) && io.read.Data? then Joined(io.replies) else ""
  }

  lemma ReadKeeps(t: Track, io: Io)
    requires Inv(t)
    ensures Inv(Book(t, HandleRead(t.conn, io.read, io.replies), Replies(t.conn, io)))
    ensures ArmedExactly(t.conn) && "" !in io.replies ==> ArmedExactly(HandleRead(t.conn, io.read, io.replies).conn)
  {
    assert t.accepted + "" == t.accepted;
    if Sendable(t.conn) {
      match io.read
      case Data(bytes) =>
        var head := [Read(bytes), Deliver(bytes)];
        var l := Record(Record(t.ledger, Read(bytes)), Deliver(bytes));
        assert head[1..] == [Deliver(bytes)];
        RecordOne(Record(t.ledger, Read(bytes)), Deliver(bytes));
        assert RecordAll(t.ledger, head) == l;
        SendAllKeeps(Track(t.conn, l, t.accepted), io.replies);
        InputUnused(t.conn, bytes, io.replies);
        assert t.conn.input + bytes == bytes;
        RecordThen(t.ledger, head, SendAll(t.conn, io.replies).log);
      case ReadAgain =>
        RecordOne(t.ledger, Read(""));
      case _ =>
        RecordOne(t.ledger, Read(""));
        CloseKeeps(t.(ledger := Record(t.ledger, Read(""))));
        RecordThen(t.ledger, [Read("")], HandleClose(t.conn).log);
    }
  }

  /** Sending does not look at the input buffer. */
  lemma {:induction false} InputUnused(c: Conn, input: string, messages: seq<string>)
    ensures SendAll(c.(input := input), messages)
         == Result(SendAll(c, messages).conn.(input := input), SendAll(c, messages).log)
    decreases |messages|
  {
    if messages != [] {
      assert SendInLoop(c.(input := input), messages[0])
          == Result(SendInLoop(c, messages[0]).conn.(input := input), SendInLoop(c, messages[0]).log);
      InputUnused(SendInLoop(c, messages[0]).conn, input, messages[1..]);
    }
  }

  lemma WriteKeeps(t: Track, w: WriteResult)
    requires Inv(t)
    ensures Inv(Book(t, HandleWrite(t.conn, w), ""))
    ensures ArmedExactly(t.conn) ==> ArmedExactly(HandleWrite(t.conn, w).conn)
  {
    var c := t.conn;
    assert t.accepted + "" == t.accepted;
    if Sendable(c) && c.events.writing {
      if w.Wrote? && Taken(c.output, w.room) > 0 {
        var n := Taken(c.output, w.room);
        var sent, rest := c.output[..n], c.output[n..];
        assert c.output == sent + rest;
        assert t.ledger.written + (sent + rest) == t.ledger.written + sent + rest;
        var l := Record(t.ledger, Write(sent));
        RecordOne(t.ledger, Write(sent));
        var d := c.(output := rest);
        RecordOne(l, CtlMod(DisableWriting(d).conn.events));
        RecordThen(t.ledger, [Write(sent)], if rest == "" then DisableWriting(d).log else []);
      } else {
        RecordOne(t.ledger, Write(""));
        if !w.WriteAgain? {
          CloseKeeps(t.(ledger := Record(t.ledger, Write(""))));
          RecordThen(t.ledger, [Write("")], HandleClose(c).log);
        }
      }
    }
  }

  lemma ClosingsKeep(t: Track, m: Mask)
    requires Inv(t)
    ensures Inv(Book(t, Closings(t.conn, m), ""))
    ensures ArmedExactly(t.conn) ==> ArmedExactly(Closings(t.conn, m).conn)
  {
    CloseKeeps(t);
    assert t.accepted + "" == t.accepted;
    var afterHup := if m.hup && !m.input then HandleClose(t.conn) else Nothing(t.conn);
    CloseKeeps(Book(t, afterHup, ""));
    RecordThen(t.ledger, afterHup.log, HandleClose(afterHup.conn).log);
  }

  /** What one dispatch makes a connection take on. */
  function EventReplies(c: Conn, m: Mask, io: Io): string {
    if !c.removed && Reads(m) then Replies(Closings(c, m).conn, io) else ""
  }

  lemma BeforeWriteKeeps(t: Track, m: Mask, io: Io)
    requires Inv(t) && !t.conn.removed
    ensures Inv(Book(t, BeforeWrite(t.conn, m, io), EventReplies(t.conn, m, io)))
    ensures ArmedExactly(t.conn) && "" !in io.replies ==> ArmedExactly(BeforeWrite(t.conn, m, io).conn)
  {
    ClosingsKeep(t, m);
    var first := Closings(t.conn, m);
    var u := Book(t, first, "");
    ReadKeeps(u, io);
    assert t.accepted + "" == t.accepted;
    RecordThen(t.ledger, first.log, Reading(first.conn, m, io).log);
    assert first.log + [] == first.log;
  }

  lemma EventKeeps(t: Track, m: Mask, io: Io)
    requires Inv(t)
    ensures Inv(Book(t, HandleEvent(t.conn, m, io), EventReplies(t.conn, m, io)))
    ensures ArmedExactly(t.conn) && "" !in io.replies ==> ArmedExactly(HandleEvent(t.conn, m, io).conn)
  {
    assert t.accepted + "" == t.accepted;
    if !t.conn.removed {
      BeforeWriteKeeps(t, m, io);
      var before := BeforeWrite(t.conn, m, io);
      var u := Book(t, before, EventReplies(t.conn, m, io));
      WriteKeeps(u, io.write);
      RecordThen(t.ledger, before.log, HandleWrite(before.conn, io.write).log);
      assert u.accepted + "" == u.accepted;
    }
  }

  lemma DestroyKeeps(t: Track)
    requires Inv(t)
    ensures Inv(Book(t, ConnectDestroyed(t.conn), "")) && ConnectDestroyed(t.conn).conn.removed
  {
    assert t.accepted + "" == t.accepted;
    RecordOne(t.ledger, CtlMod(NO_EVENTS));
  }

  // ----- runs of one connection -----

  datatype Event =
    | Ready(mask: Mask, io: Io)   // epoll reports the channel
    | Send(message: string)       // sendInLoop, from whatever thread the message comes
    | Destroy                     // connectDestroyed, by the server's destructor

  function Next(t: Track, e: Event): Track {
    match e
    case Ready(m, io) => Book(t, HandleEvent(t.conn, m, io), EventReplies(t.conn, m, io))
    case Send(message) => Book(t, SendInLoop(t.conn, message), if Sendable(t.conn) then message else "")
    case Destroy => Book(t, ConnectDestroyed(t.conn), "")
  }

  function Begin(greetings: seq<string>): Track {
    Book(Track(UNCONNECTED, NEW_LEDGER, ""), Established(greetings), Joined(greetings))
  }

  function Run(t: Track, events: seq<Event>): Track
    decreases |events|
  {
    if events == [] then t else Run(Next(t, events[0]), events[1..])
  }

  /** No message of the run is empty. */
  predicate Speaking(e: Event) {
    (e.Send? ==> e.message != "") && (e.Ready? ==> "" !in e.io.replies)
  }

  lemma BeginKeeps(greetings: seq<string>)
    ensures Inv(Begin(greetings))
    ensures "" !in greetings ==> ArmedExactly(Begin(greetings).conn)
  {
    var t := Track(UNCONNECTED, NEW_LEDGER, "");
    var r := EnableReading(UNCONNECTED);
    RecordOne(NEW_LEDGER, CtlAdd(r.conn.events));
    var u := Track(r.conn, Record(NEW_LEDGER, CtlAdd(r.conn.events)), "");
    assert "" + "" == "";
    assert Inv(u);
    SendAllKeeps(u, greetings);
    RecordThen(NEW_LEDGER, r.log, SendAll(r.conn, greetings).log);
    assert "" + Joined(greetings) == Joined(greetings);
  }

  lemma NextKeeps(t: Track, e: Event)
    requires Inv(t)
    ensures Inv(Next(t, e))
    ensures ArmedExactly(t.conn) && Speaking(e) ==> ArmedExactly(Next(t, e).conn)
  {
    match e
    case Ready(m, io) => EventKeeps(t, m, io);
    case Send(message) => SendKeeps(t, message);
    case Destroy => DestroyKeeps(t);
  }

  lemma {:induction false} RunKeeps(t: Track, events: seq<Event>)
    requires Inv(t)
    ensures Inv(Run(t, events))
    ensures ArmedExactly(t.conn) && (forall i :: 0 <= i < |events| ==> Speaking(events[i])) ==>
              ArmedExactly(Run(t, events).conn)
    decreases |events|
  {
    if events != [] {
      NextKeeps(t, events[0]);
      RunKeeps(Next(t, events[0]), events[1..]);
    }
  }

  /**
   For every sequence of event masks and system-call results: the fd is closed at most once and
   nothing is done with it afterwards, every epoll_ctl finds the table as it expects it, and the
   server is told of the close exactly once, when it happens.
   */
  lemma CloseLifecycle(greetings: seq<string>, events: seq<Event>)
    ensures var t := Run(Begin(greetings), events);
            && t.ledger.orderly
            && t.ledger.closed == !t.conn.open
            && t.ledger.notified == (if t.conn.open then 0 else 1)
            && t.ledger.interest == (if t.conn.open then Some(t.conn.events) else None)
  {
    BeginKeeps(greetings);
    RunKeeps(Begin(greetings), events);
  }

  /** Bytes written, then bytes waiting, are the accepted messages, in order; and what was read has
      been delivered. */
  lemma StreamsConserved(greetings: seq<string>, events: seq<Event>)
    ensures var t := Run(Begin(greetings), events);
            && t.ledger.written + t.conn.output == t.accepted
            && t.ledger.delivered == t.ledger.received
  {
    BeginKeeps(greetings);
    RunKeeps(Begin(greetings), events);
  }

  /** What an event offers for sending. */
  function OfferedBy(e: Event): string {
    match e
    case Send(message) => message
    case Ready(m, io) => if Reads(m) && io.read.Data? then Joined(io.replies) else ""
    case Destroy => ""
  }

  function Offered(events: seq<Event>): string
    decreases |events|
  {
    if events == [] then "" else OfferedBy(events[0]) + Offered(events[1..])
  }

  /**
   As long as the connection is open nothing offered is lost or reordered: the bytes written and
   the bytes waiting are all the messages of the run, one after the other.
   */
  lemma {:induction false} NothingLost(t: Track, events: seq<Event>)
    requires Inv(t) && Sendable(Run(t, events).conn)
    ensures Sendable(t.conn)
    ensures Run(t, events).ledger.written + Run(t, events).conn.output == t.accepted + Offered(events)
    decreases |events|
  {
    RunKeeps(t, events);
    if events == [] {
      assert t.accepted + "" == t.accepted;
    } else {
      var first, more := OfferedBy(events[0]), Offered(events[1..]);
      NextKeeps(t, events[0]);
      NothingLost(Next(t, events[0]), events[1..]);
      assert (t.accepted + first) + more == t.accepted + (first + more);
    }
  }

  /** As long as no message is empty, EPOLLOUT interest is exactly a non-empty output buffer. */
  lemma WriteInterest(greetings: seq<string>, events: seq<Event>)
    requires "" !in greetings && forall i :: 0 <= i < |events| ==> Speaking(events[i])
    ensures var t := Run(Begin(greetings), events);
            t.conn.open && !t.conn.removed ==>
              t.ledger.interest == Some(Events(true, t.conn.output != ""))
  {
    BeginKeeps(greetings);
    RunKeeps(Begin(greetings), events);
  }

  /** Messages were sent, and none of them has a byte. */
  predicate Silent(messages: seq<string>) {
    messages != [] && Joined(messages) == ""
  }

  /** What sending does to a registered connection that can still send. */
  lemma {:induction false} SendAllState(c: Conn, messages: seq<string>)
    requires Sendable(c) && c.registered
    ensures SendAll(c, messages).conn
         == c.(output := c.output + Joined(messages),
               events := c.events.(writing := c.events.writing || messages != []))
    decreases |messages|
  {
    if messages == [] {
      assert c.output + "" == c.output;
    } else {
      var d := SendInLoop(c, messages[0]).conn;
      SendAllState(d, messages[1..]);
      assert c.output + messages[0] + Joined(messages[1..]) == c.output + Joined(messages);
    }
  }

  lemma {:induction false} SendAllIdle(c: Conn, messages: seq<string>)
    requires !Sendable(c)
    ensures SendAll(c, messages).conn == c
    decreases |messages|
  {
    if messages != [] {
      SendAllIdle(c, messages[1..]);
    }
  }

  /** Sending breaks the agreement exactly when it sends nothing, but does send, on an idle connection. */
  lemma SendAllExactly(t: Track, messages: seq<string>)
    requires Inv(t) && ArmedExactly(t.conn)
    ensures ArmedExactly(SendAll(t.conn, messages).conn)
       <==> !(Sendable(t.conn) && t.conn.output == "" && Silent(messages))
  {
    if Sendable(t.conn) {
      SendAllState(t.conn, messages);
    } else {
      SendAllIdle(t.conn, messages);
    }
  }

  /** handleEvent does not close before it reads. */
  predicate ReadsOpen(m: Mask) {
    Reads(m) && !(m.hup && !m.input) && !m.err && !m.rdhup
  }

  /** The events that leave EPOLLOUT armed with nothing to write: a send, or the callback's replies,
      without a byte on an idle connection, unless the same dispatch goes on to write and so closes. */
  predicate ArmsIdle(c: Conn, e: Event) {
    Sendable(c) && c.output == "" &&
    match e
    case Send(message) => message == ""
    case Ready(m, io) =>
      ReadsOpen(m) && io.read.Data? && Silent(io.replies) && (m.output ==> io.write.WriteAgain?)
    case Destroy => false
  }

  lemma SilentReady(t: Track, m: Mask, io: Io)
    requires Inv(t) && ArmedExactly(t.conn) && Sendable(t.conn) && t.conn.output == ""
    requires ReadsOpen(m) && io.read.Data? && Silent(io.replies)
    ensures ArmedExactly(HandleEvent(t.conn, m, io).conn) <==> m.output && !io.write.WriteAgain?
  {
    var c := t.conn;
    var d := c.(input := c.input + io.read.bytes);
    SendAllState(d, io.replies);
    assert c.output + Joined(io.replies) == "";
    assert Closings(c, m).conn == c;
    var e := BeforeWrite(c, m, io).conn;
    assert Sendable(e) && e.events.writing && e.output == "";
  }

  lemma SpokenReady(t: Track, m: Mask, io: Io)
    requires Inv(t) && ArmedExactly(t.conn) && !t.conn.removed
    requires !(Sendable(t.conn) && t.conn.output == "" && ReadsOpen(m) && io.read.Data? && Silent(io.replies))
    ensures ArmedExactly(HandleEvent(t.conn, m, io).conn)
  {
    ClosingsKeep(t, m);
    var first := Closings(t.conn, m);
    var u := Book(t, first, "");
    if io.read.Data? && Sendable(first.conn) {
      assert first.conn == t.conn;
      SendAllExactly(u, io.replies);
      InputUnused(first.conn, first.conn.input + io.read.bytes, io.replies);
    } else {
      ReadKeeps(u, io.(replies := []));
      assert io.read.Data? ==> HandleRead(first.conn, io.read, io.replies) == Nothing(first.conn);
    }
    BeforeWriteKeeps(t, m, io);
    WriteKeeps(Book(t, BeforeWrite(t.conn, m, io), EventReplies(t.conn, m, io)), io.write);
  }

  /** One event breaks the agreement exactly when it is one of those. */
  lemma EventExactly(t: Track, e: Event)
    requires Inv(t) && ArmedExactly(t.conn)
    ensures ArmedExactly(Next(t, e).conn) <==> !ArmsIdle(t.conn, e)
  {
    match e
    case Send(message) => EmptySendExactly(t, message);
    case Destroy => DestroyKeeps(t);
    case Ready(m, io) =>
      if !t.conn.removed {
        if Sendable(t.conn) && t.conn.output == "" && ReadsOpen(m) && io.read.Data? && Silent(io.replies) {
          SilentReady(t, m, io);
        } else {
          SpokenReady(t, m, io);
        }
      }
  }

  ghost predicate AlwaysExact(t: Track, events: seq<Event>)
    decreases |events|
  {
    ArmedExactly(t.conn) && (events != [] ==> AlwaysExact(Next(t, events[0]), events[1..]))
  }

  ghost predicate NeverArmsIdle(t: Track, events: seq<Event>)
    decreases |events|
  {
    events == [] || (!ArmsIdle(t.conn, events[0]) && NeverArmsIdle(Next(t, events[0]), events[1..]))
  }

  lemma {:induction false} AlwaysExactly(t: Track, events: seq<Event>)
    requires Inv(t) && ArmedExactly(t.conn)
    ensures AlwaysExact(t, events) <==> NeverArmsIdle(t, events)
    decreases |events|
  {
    if events != [] {
      EventExactly(t, events[0]);
      NextKeeps(t, events[0]);
      if ArmedExactly(Next(t, events[0]).conn) {
        AlwaysExactly(Next(t, events[0]), events[1..]);
      } else {
        assert !AlwaysExact(Next(t, events[0]), events[1..]);
      }
    }
  }

  lemma BeginExactly(greetings: seq<string>)
    ensures ArmedExactly(Begin(greetings).conn) <==> !Silent(greetings)
  {
    SendAllState(EnableReading(UNCONNECTED).conn, greetings);
  }

  /** At every point of a run EPOLLOUT interest is exactly a non-empty output buffer, if and only if
      the connection is not greeted with nothing and none of those events occurs. */
  lemma WriteInterestExactly(greetings: seq<string>, events: seq<Event>)
    ensures AlwaysExact(Begin(greetings), events)
       <==> !Silent(greetings) && NeverArmsIdle(Begin(greetings), events)
  {
    BeginKeeps(greetings);
    BeginExactly(greetings);
    if ArmedExactly(Begin(greetings).conn) {
      AlwaysExactly(Begin(greetings), events);
    } else {
      assert !AlwaysExact(Begin(greetings), events);
    }
  }

  /** A send breaks that agreement exactly when it is an empty message on an idle connection. */
  lemma EmptySendExactly(t: Track, message: string)
    requires Inv(t) && ArmedExactly(t.conn)
    ensures ArmedExactly(Next(t, Send(message)).conn)
       <==> !(message == "" && t.conn.output == "" && t.conn.open && !t.conn.removed)
  {
    SendKeeps(t, message);
    assert t.conn.output + "" == t.conn.output;
  }

  // ----- what single events do -----

  const WRITABLE := Mask(false, false, false, false, false, true)

  /** A new connection is open and read from; what a greeting sends is on its way. */
  lemma BeginText(greetings: seq<string>)
    ensures var t := Begin(greetings);
            && t.conn == Conn(true, Events(true, greetings != []), true, false, "", Joined(greetings))
            && t.ledger == Ledger(Some(Events(true, greetings != [])), false, 0, "", "", "", true)
            && t.accepted == Joined(greetings)
  {
    BeginKeeps(greetings);
    SendAllState(EnableReading(UNCONNECTED).conn, greetings);
    assert "" + Joined(greetings) == Joined(greetings);
    var t := Begin(greetings);
    NothingRead(greetings);
  }

  lemma {:induction false} SendLog(c: Conn, messages: seq<string>, l: Ledger)
    ensures var m := RecordAll(l, SendAll(c, messages).log);
            m.received == l.received && m.delivered == l.delivered && m.written == l.written
    decreases |messages|
  {
    if messages != [] {
      var first := SendInLoop(c, messages[0]);
      RecordThen(l, first.log, SendAll(first.conn, messages[1..]).log);
      if first.log != [] {
        assert first.log == [first.log[0]];
        RecordOne(l, first.log[0]);
      }
      SendLog(first.conn, messages[1..], RecordAll(l, first.log));
    }
  }

  lemma NothingRead(greetings: seq<string>)
    ensures var l := Begin(greetings).ledger; l.received == "" && l.delivered == "" && l.written == ""
  {
    var r := EnableReading(UNCONNECTED);
    RecordThen(NEW_LEDGER, r.log, SendAll(r.conn, greetings).log);
    RecordOne(NEW_LEDGER, CtlAdd(r.conn.events));
    SendLog(r.conn, greetings, RecordAll(NEW_LEDGER, r.log));
  }

  /** A message sent on an open connection waits behind what waits already, with EPOLLOUT armed. */
  lemma SendWaits(t: Track, message: string)
    requires Inv(t) && Sendable(t.conn)
    ensures var u := Next(t, Send(message));
            && u.conn == t.conn.(output := t.conn.output + message, events := t.conn.events.(writing := true))
            && u.accepted == t.accepted + message && u.ledger.written == t.ledger.written
  {
    var r := SendInLoop(t.conn, message);
    if r.log != [] {
      RecordOne(t.ledger, CtlMod(r.conn.events));
    }
  }

  function Least(a: nat, b: nat): nat {
    if a < b then a else b
  }

  /** A writable connection with something to write writes as much of it as there is room for, keeps
      the rest, and stays open. */
  lemma WritesOut(t: Track, io: Io, room: nat)
    requires Inv(t) && Sendable(t.conn) && t.conn.output != "" && io.write == Wrote(room) && room > 0
    ensures var u, n := Next(t, Ready(WRITABLE, io)), Least(room, |t.conn.output|);
            && u.ledger.written == t.ledger.written + t.conn.output[..n]
            && u.conn.output == t.conn.output[n..] && Sendable(u.conn) && u.accepted == t.accepted
            && (ArmedExactly(t.conn) ==> ArmedExactly(u.conn))
  {
    var c, n := t.conn, Least(room, |t.conn.output|);
    var d := c.(output := c.output[n..]);
    var before := BeforeWrite(c, WRITABLE, io);
    assert before == Nothing(c);
    var after := if d.output == "" then DisableWriting(d) else Nothing(d);
    assert HandleWrite(c, io.write) == Then(Result(d, [Write(c.output[..n])]), after);
    assert [] + HandleWrite(c, io.write).log == HandleWrite(c, io.write).log;
    RecordThen(t.ledger, [Write(c.output[..n])], after.log);
    RecordOne(t.ledger, Write(c.output[..n]));
    RecordOne(Record(t.ledger, Write(c.output[..n])), CtlMod(DisableWriting(d).conn.events));
    assert t.accepted + "" == t.accepted;
    NextKeeps(t, Ready(WRITABLE, io));
  }

  /** A writable event with nothing to write, or one that has to be tried again, changes no stream. */
  lemma WritesNothing(t: Track, io: Io)
    requires Inv(t) && Sendable(t.conn) && ArmedExactly(t.conn) && (t.conn.output == "" || io.write == WriteAgain)
    ensures var u := Next(t, Ready(WRITABLE, io));
            && u.ledger.written == t.ledger.written && u.conn == t.conn && u.accepted == t.accepted
  {
    assert BeforeWrite(t.conn, WRITABLE, io) == Nothing(t.conn);
    RecordOne(t.ledger, Write(""));
    assert [] + [Write("")] == [Write("")] && t.accepted + "" == t.accepted;
    assert t.ledger.written + "" == t.ledger.written;
  }

  function WritableEvents(results: seq<WriteResult>): seq<Event> {
    seq(|results|, i requires 0 <= i < |results| => Ready(WRITABLE, Io(ReadAgain, [], results[i])))
  }

  function Room(results: seq<WriteResult>): nat
    decreases |results|
  {
    if results == [] then 0 else (if results[0].Wrote? then results[0].room else 0) + Room(results[1..])
  }

  /** Writable events with enough room in total, however it is divided and whatever has to be tried
      again, write everything out: the buffer is empty, and all the connection took on is written. */
  lemma {:induction false} WrittenOut(t: Track, results: seq<WriteResult>)
    requires Inv(t) && Sendable(t.conn) && ArmedExactly(t.conn) && |t.conn.output| <= Room(results)
    requires forall i :: 0 <= i < |results| ==> results[i] == WriteAgain || (results[i].Wrote? && results[i].room > 0)
    ensures var u := Run(t, WritableEvents(results));
            && u.conn.output == "" && Sendable(u.conn) && u.accepted == t.accepted
            && u.ledger.written == t.ledger.written + t.conn.output && u.ledger.written == t.accepted
    decreases |results|
  {
    if results == [] {
      assert t.ledger.written + "" == t.ledger.written;
    } else {
      var e := Ready(WRITABLE, Io(ReadAgain, [], results[0]));
      var u := Next(t, e);
      NextKeeps(t, e);
      if t.conn.output == "" || results[0] == WriteAgain {
        WritesNothing(t, e.io);
      } else {
        WritesOut(t, e.io, results[0].room);
        var n := Least(results[0].room, |t.conn.output|);
        assert t.conn.output == t.conn.output[..n] + t.conn.output[n..];
      }
      WritableRest(results);
      WrittenOut(u, results[1..]);
    }
  }

  /** What is sent is then written out, behind what waited before. */
  lemma SentThenWritten(t: Track, text: string, results: seq<WriteResult>)
    requires Inv(t) && Sendable(t.conn) && ArmedExactly(t.conn) && text != ""
    requires |t.conn.output| + |text| <= Room(results)
    requires forall i :: 0 <= i < |results| ==> results[i] == WriteAgain || (results[i].Wrote? && results[i].room > 0)
    ensures var u := Run(Next(t, Send(text)), WritableEvents(results));
            u.conn.output == "" && Sendable(u.conn) && u.ledger.written == t.accepted + text
  {
    SendWaits(t, text);
    NextKeeps(t, Send(text));
    WrittenOut(Next(t, Send(text)), results);
  }

  lemma WritableRest(results: seq<WriteResult>)
    requires results != []
    ensures WritableEvents(results)[1..] == WritableEvents(results[1..])
    ensures WritableEvents(results)[0] == Ready(WRITABLE, Io(ReadAgain, [], results[0]))
  {
  }

  /** The masks on which handleEvent closes before anything else. */
  predicate AsksClose(m: Mask) {
    (m.hup && !m.input) || m.err || m.rdhup
  }

  /** Input is delivered to the application, and its replies are taken on, unless the mask closes. */
  lemma InputDelivered(t: Track, m: Mask, io: Io)
    requires Inv(t) && Sendable(t.conn) && !AsksClose(m) && (m.input || m.pri) && io.read.Data?
    ensures var u := Next(t, Ready(m, io));
            && u.ledger.received == t.ledger.received + io.read.bytes
            && u.ledger.delivered == t.ledger.delivered + io.read.bytes
            && u.accepted == t.accepted + Joined(io.replies)
  {
    var before := BeforeWrite(t.conn, m, io);
    var read := HandleRead(t.conn, io.read, io.replies);
    assert [] + read.log == read.log;
    ReadLog(t, io);
    WriteLog(before.conn, io.write, RecordAll(t.ledger, before.log));
    RecordThen(t.ledger, before.log, HandleWrite(before.conn, io.write).log);
  }

  lemma ReadLog(t: Track, io: Io)
    requires Inv(t) && Sendable(t.conn) && io.read.Data?
    ensures var l := RecordAll(t.ledger, HandleRead(t.conn, io.read, io.replies).log);
            && l.received == t.ledger.received + io.read.bytes
            && l.delivered == t.ledger.delivered + io.read.bytes
  {
    var bytes, c := io.read.bytes, t.conn.(input := t.conn.input + io.read.bytes);
    var head := [Read(bytes), Deliver(c.input)];
    var l := Record(Record(t.ledger, Read(bytes)), Deliver(c.input));
    assert t.conn.input + bytes == bytes;
    assert head[1..] == [Deliver(c.input)];
    RecordOne(Record(t.ledger, Read(bytes)), Deliver(c.input));
    assert RecordAll(t.ledger, head) == l;
    RecordThen(t.ledger, head, SendAll(c, io.replies).log);
    SendLog(c, io.replies, l);
  }

  /** A write neither reads nor delivers. */
  lemma WriteLog(c: Conn, w: WriteResult, l: Ledger)
    ensures var m := RecordAll(l, HandleWrite(c, w).log);
            m.received == l.received && m.delivered == l.delivered
  {
    NoInput(l, HandleWrite(c, w).log);
  }

  lemma {:induction false} NoInput(l: Ledger, log: seq<Effect>)
    requires forall i :: 0 <= i < |log| ==> !log[i].Read? && !log[i].Deliver?
    ensures RecordAll(l, log).received == l.received && RecordAll(l, log).delivered == l.delivered
    decreases |log|
  {
    if log != [] {
      NoInput(Record(l, log[0]), log[1..]);
    }
  }

  /** EPOLLOUT is armed when the write comes, and there is nothing to write, or no room, or an error. */
  predicate WriteCloses(c: Conn, m: Mask, io: Io) {
    var replied := (m.input || m.pri) && io.read.Data?;
    && m.output
    && (c.events.writing || (replied && io.replies != []))
    && (io.write.WriteError?
        || (io.write.Wrote? && (io.write.room == 0 || (c.output == "" && (replied ==> Joined(io.replies) == "")))))
  }

  /** A dispatch closes the connection exactly when the mask asks for it, or the read finds the end or
      an error, or the write does. */
  lemma ClosesExactly(t: Track, m: Mask, io: Io)
    requires Inv(t) && Sendable(t.conn)
    ensures !Next(t, Ready(m, io)).conn.open
       <==> AsksClose(m)
            || ((m.input || m.pri) && (io.read.Eof? || io.read.ReadError?))
            || WriteCloses(t.conn, m, io)
  {
    CloseKeeps(t);
    var c := t.conn;
    if !AsksClose(m) && (m.input || m.pri) && io.read.Data? {
      SendAllState(c.(input := c.input + io.read.bytes), io.replies);
      ReadStays(c, io);
    }
  }

  lemma ReadStays(c: Conn, io: Io)
    requires Sendable(c) && c.registered && io.read.Data?
    ensures HandleRead(c, io.read, io.replies).conn
         == c.(output := c.output + Joined(io.replies), input := "",
               events := c.events.(writing := c.events.writing || io.replies != []))
  {
    SendAllState(c.(input := c.input + io.read.bytes), io.replies);
  }

  /** And then the next writable event closes the connection: a write of no bytes returns 0. */
  lemma EmptySendCloses(t: Track, io: Io)
    requires Inv(t) && ArmedExactly(t.conn) && t.conn.open && !t.conn.removed && t.conn.output == ""
    requires io.write.Wrote?
    ensures var writable := Mask(false, false, false, false, false, true);
            !Next(Next(t, Send("")), Ready(writable, io)).conn.open
  {
    SendKeeps(t, "");
    assert t.conn.output + "" == "";
    CloseKeeps(Next(t, Send("")));
  }
}

/** The names newConnection gives, cut off by its 64-character buffer. */
module ConnectionNames {
  import opened Decimals

  const NAME_LIMIT := 63

  function NameOf(server: string, id: nat): string {
    var name := server + "-" + Decimal(id);
    if |name| <= NAME_LIMIT then name else name[..NAME_LIMIT]
  }

  /** A name that fits is the server's name, a hyphen and the number; one that does not is the first 63
      characters of that. */
  lemma NameText(server: string, id: nat)
    ensures var name := server + "-" + Decimal(id);
            NameOf(server, id) == if |name| <= 63 then name else name[..63]
  {
  }

  /** The name of the `n`-th connection fits the buffer, or it is the only one. */
  predicate NamesFit(server: string, n: nat) {
    n <= 1 || |server| + 1 + |Decimal(n)| <= 63
  }

  lemma {:induction false} DecimalGrows(i: nat, j: nat)
    requires i <= j
    ensures |Decimal(i)| <= |Decimal(j)|
    decreases j
  {
    if j >= 10 && i >= 10 {
      DecimalGrows(i / 10, j / 10);
    }
  }

  /** The first digits of a number are those of a smaller one. */
  lemma {:induction false} FirstDigits(n: nat, d: nat) returns (m: nat)
    requires 0 < d < |Decimal(n)| && n > 0
    ensures 0 < m < n && Decimal(m) == Decimal(n)[..d]
    decreases n
  {
    var short := Decimal(n / 10);
    assert n >= 10 && Decimal(n)[..|short|] == short;
    if d == |short| {
      m := n / 10;
    } else {
      m := FirstDigits(n / 10, d);
      assert Decimal(n)[..d] == short[..d];
    }
  }

  lemma FittingNamesDiffer(server: string, i: nat, j: nat)
    requires i < j && |server| + 1 + |Decimal(j)| <= NAME_LIMIT
    ensures NameOf(server, i) != NameOf(server, j)
  {
    DecimalGrows(i, j);
    DecimalValue(i);
    DecimalValue(j);
    var n := |server| + 1;
    assert (server + "-" + Decimal(i))[n..] == Decimal(i);
    assert (server + "-" + Decimal(j))[n..] == Decimal(j);
  }

  /** A name that does not fit is the name of an earlier connection. */
  lemma CutNameRepeats(server: string, n: nat) returns (i: nat)
    requires n >= 2 && |server| + 1 + |Decimal(n)| > NAME_LIMIT
    ensures 0 < i < n && NameOf(server, i) == NameOf(server, n)
  {
    var room := NAME_LIMIT - |server| - 1;
    if room <= 0 {
      i := 1;
      assert (server + "-" + Decimal(1))[..NAME_LIMIT] == (server + "-")[..NAME_LIMIT];
      assert (server + "-" + Decimal(n))[..NAME_LIMIT] == (server + "-")[..NAME_LIMIT];
    } else {
      i := FirstDigits(n, room);
      assert (server + "-" + Decimal(n))[..NAME_LIMIT] == server + "-" + Decimal(n)[..room];
    }
  }

  lemma FitsEarlier(server: string, i: nat, n: nat)
    requires i <= n && NamesFit(server, n)
    ensures NamesFit(server, i)
  {
    DecimalGrows(i, n);
  }

  lemma NamesDiffer(server: string, i: nat, j: nat, n: nat)
    requires NamesFit(server, n) && 0 < i <= n && 0 < j <= n && i != j
    ensures NameOf(server, i) != NameOf(server, j)
  {
    DecimalGrows(i, n);
    DecimalGrows(j, n);
    if i < j {
      FittingNamesDiffer(server, i, j);
    } else {
      FittingNamesDiffer(server, j, i);
    }
  }

  /** The first `n` connections of a server all have names of their own exactly when the last of
      these names fits the buffer. */
  lemma NamesDistinctExactly(server: string, n: nat)
    ensures (forall i: nat, j: nat | 0 < i < j <= n :: NameOf(server, i) != NameOf(server, j))
       <==> NamesFit(server, n)
  {
    if NamesFit(server, n) {
      forall i: nat, j: nat | 0 < i < j <= n ensures NameOf(server, i) != NameOf(server, j) {
        NamesDiffer(server, i, j, n);
      }
    } else {
      var i := CutNameRepeats(server, n);
    }
  }
}

/** `TcpServer` and its connections.  The model numbers connections; the server's map knows them by name. */
module Servers {
  import opened ConnectionNames
  import opened Options
  import C = Connections

  /** `fds` are the descriptors the kernel gave; `connections` maps names to the connections they
      stand for; `stray` counts close callbacks into a server that no longer exists. */
  datatype World = World(server: string, tracks: map<nat, C.Track>, fds: map<nat, nat>,
                         connections: map<string, nat>, nextId: nat, serving: bool, stray: nat)

  function Initial(server: string): World {
    World(server, map[], map[], map[], 1, true, 0)
  }

  datatype Event =
    | Accept(fd: nat, greetings: seq<string>)
    | On(id: nat, event: C.Event)
    | Shutdown   // the destructor, on the loop's thread

  /** The kernel gives out a descriptor only while no open connection has it. */
  ghost predicate Legal(w: World, e: Event) {
    match e
    case Accept(fd, _) =>
      w.serving && forall id :: id in w.tracks && id in w.fds ==> !(w.tracks[id].conn.open && w.fds[id] == fd)
    case On(id, event) => id in w.tracks && !event.Destroy?
    case Shutdown => w.serving
  }

  function Told(w: World, id: nat, t: C.Track): World
    requires id in w.tracks
  {
    var v := w.(tracks := w.tracks[id := t]);
    if t.ledger.notified == w.tracks[id].ledger.notified then v
    else if w.serving then v.(connections := v.connections - {NameOf(w.server, id)})
    else v.(stray := v.stray + 1)
  }

  /** The connection the map has under its name. */
  predicate Listed(w: World, id: nat) {
    NameOf(w.server, id) in w.connections && w.connections[NameOf(w.server, id)] == id
  }

  ghost function Next(w: World, e: Event): World
    requires Legal(w, e)
  {
    match e
    case Accept(fd, greetings) =>
      w.(tracks := w.tracks[w.nextId := C.Begin(greetings)], fds := w.fds[w.nextId := fd],
         connections := w.connections[NameOf(w.server, w.nextId) := w.nextId], nextId := w.nextId + 1)
    case On(id, event) => Told(w, id, C.Next(w.tracks[id], event))
    case Shutdown =>
      w.(tracks := map id | id in w.tracks ::
           if Listed(w, id) then C.Next(w.tracks[id], C.Destroy) else w.tracks[id],
         connections := map[], serving := false)
  }

  ghost predicate TrackOk(w: World, id: nat) {
    && id in w.tracks && id in w.fds && 0 < id < w.nextId
    && C.Inv(w.tracks[id])
    && (w.serving && w.tracks[id].conn.open ==> !w.tracks[id].conn.removed)
  }

  ghost predicate OpenOn(w: World, id: nat, fd: nat) {
    id in w.tracks && id in w.fds && w.tracks[id].conn.open && w.fds[id] == fd
  }

  /** No descriptor belongs to two open connections. */
  ghost predicate FdsApart(w: World) {
    forall fd, i, j :: OpenOn(w, i, fd) && OpenOn(w, j, fd) ==> i == j
  }

  predicate Open(w: World, id: nat) {
    id in w.tracks && w.tracks[id].conn.open
  }

  /** The map has exactly the open connections, each under its name. */
  ghost predicate ListsOpen(w: World) {
    && (forall id :: Listed(w, id) <==> Open(w, id))
    && (forall name :: name in w.connections ==> NameOf(w.server, w.connections[name]) == name)
  }

  /** What holds as long as names do not repeat. */
  ghost predicate Known(w: World) {
    && (w.serving ==> ListsOpen(w))
    && (!w.serving ==> forall id :: id in w.tracks ==> w.tracks[id].conn.removed)
    && w.stray == 0
  }

  predicate Fits(w: World) {
    w.nextId > 0 && NamesFit(w.server, w.nextId - 1)
  }

  ghost predicate Inv(w: World) {
    && w.nextId > 0
    && (forall id :: id in w.tracks ==> TrackOk(w, id))
    && FdsApart(w)
    && (Fits(w) ==> Known(w))
  }

  /** Only the server's destructor marks an open connection as removed. */
  lemma {:induction false} SendsKeepChannel(c: C.Conn, messages: seq<string>)
    ensures C.SendAll(c, messages).conn.removed == c.removed && C.SendAll(c, messages).conn.open == c.open
    decreases |messages|
  {
    if messages != [] {
      SendsKeepChannel(C.SendInLoop(c, messages[0]).conn, messages[1..]);
    }
  }

  /** An open connection was open before, and is not removed unless it was. */
  predicate ChannelKept(c: C.Conn, c': C.Conn) {
    c'.open ==> c.open && (!c.removed ==> !c'.removed)
  }

  lemma ReadKeepsChannel(c: C.Conn, r: C.ReadResult, replies: seq<string>)
    ensures ChannelKept(c, C.HandleRead(c, r, replies).conn)
  {
    if r.Data? {
      SendsKeepChannel(c.(input := c.input + r.bytes), replies);
    }
  }

  lemma WriteKeepsChannel(c: C.Conn, w: C.WriteResult)
    ensures ChannelKept(c, C.HandleWrite(c, w).conn)
  {
  }

  lemma ClosingsKeepChannel(c: C.Conn, m: C.Mask)
    ensures ChannelKept(c, C.Closings(c, m).conn)
  {
  }

  lemma EventKeepsChannel(t: C.Track, e: C.Event)
    requires C.Inv(t) && !e.Destroy?
    ensures ChannelKept(t.conn, C.Next(t, e).conn)
    ensures t.conn.removed ==> C.Next(t, e) == t
  {
    assert t.accepted + "" == t.accepted;
    if e.Ready? && !t.conn.removed {
      var first := C.Closings(t.conn, e.mask).conn;
      ClosingsKeepChannel(t.conn, e.mask);
      ReadKeepsChannel(first, e.io.read, e.io.replies);
      WriteKeepsChannel(C.BeforeWrite(t.conn, e.mask, e.io).conn, e.io.write);
    }
  }

  lemma BeginOpen(greetings: seq<string>)
    ensures var t := C.Begin(greetings); C.Inv(t) && t.conn.open && !t.conn.removed
  {
    C.BeginKeeps(greetings);
    SendsKeepChannel(C.EnableReading(C.UNCONNECTED).conn, greetings);
  }

  /** A new name in the map, if it is one. */
  lemma AcceptLists(w: World, e: Event)
    requires Inv(w) && Legal(w, e) && e.Accept? && Fits(Next(w, e))
    ensures ListsOpen(Next(w, e)) && Fits(w)
  {
    var v, n := Next(w, e), w.nextId;
    FitsEarlier(w.server, n - 1, n);
    BeginOpen(e.greetings);
    forall id ensures Listed(v, id) <==> Open(v, id) {
      assert Open(w, id) ==> TrackOk(w, id);
      assert Listed(w, id) <==> Open(w, id);
      if id != n && Open(w, id) {
        NamesDiffer(w.server, id, n, n);
      }
    }
  }

  lemma InvAccept(w: World, e: Event)
    requires Inv(w) && Legal(w, e) && e.Accept?
    ensures Inv(Next(w, e))
  {
    BeginOpen(e.greetings);
    assert w.nextId in w.tracks ==> TrackOk(w, w.nextId);
    var v := Next(w, e);
    forall id | id in v.tracks ensures TrackOk(v, id) {
      assert id != w.nextId ==> TrackOk(w, id);
    }
    forall fd, i, j | OpenOn(v, i, fd) && OpenOn(v, j, fd) ensures i == j {
      if i != w.nextId && j != w.nextId {
        assert OpenOn(w, i, fd) && OpenOn(w, j, fd);
      }
    }
    if Fits(v) {
      AcceptLists(w, e);
    }
  }

  /** What an event may make of a connection; the server is told exactly when it closes. */
  ghost predicate Moved(t: C.Track, t': C.Track) {
    && C.Inv(t') && ChannelKept(t.conn, t'.conn)
    && (t'.ledger.notified == t.ledger.notified <==> t'.conn.open == t.conn.open)
    && (t.conn.removed ==> t' == t)
  }

  lemma OnMoves(w: World, id: nat, event: C.Event)
    requires Inv(w) && id in w.tracks && !event.Destroy?
    ensures Moved(w.tracks[id], C.Next(w.tracks[id], event))
  {
    assert TrackOk(w, id);
    C.NextKeeps(w.tracks[id], event);
    EventKeepsChannel(w.tracks[id], event);
  }

  /** A close takes the name out of the map, and no other. */
  lemma ToldLists(w: World, i: nat, t: C.Track, id: nat)
    requires Inv(w) && i in w.tracks && Moved(w.tracks[i], t) && Fits(w) && w.serving
    ensures Listed(Told(w, i, t), id) <==> Open(Told(w, i, t), id)
  {
    assert TrackOk(w, i);
    assert Listed(w, id) <==> Open(w, id);
    if id != i && Open(w, id) {
      assert TrackOk(w, id);
      NamesDiffer(w.server, id, i, w.nextId - 1);
    }
  }

  lemma ToldKnown(w: World, i: nat, t: C.Track)
    requires Inv(w) && i in w.tracks && Moved(w.tracks[i], t) && Fits(w)
    ensures Known(Told(w, i, t))
  {
    if w.serving {
      forall id ensures Listed(Told(w, i, t), id) <==> Open(Told(w, i, t), id) {
        ToldLists(w, i, t, id);
      }
    }
  }

  lemma ToldInv(w: World, i: nat, t: C.Track)
    requires Inv(w) && i in w.tracks && Moved(w.tracks[i], t)
    ensures Inv(Told(w, i, t))
  {
    var v := Told(w, i, t);
    assert TrackOk(w, i);
    forall id | id in v.tracks ensures TrackOk(v, id) {
      assert TrackOk(w, id);
    }
    forall fd, j, k | OpenOn(v, j, fd) && OpenOn(v, k, fd) ensures j == k {
      assert OpenOn(w, j, fd) && OpenOn(w, k, fd);
    }
    if Fits(w) {
      ToldKnown(w, i, t);
    }
  }

  lemma InvOn(w: World, e: Event)
    requires Inv(w) && Legal(w, e) && e.On?
    ensures Inv(Next(w, e))
  {
    OnMoves(w, e.id, e.event);
    ToldInv(w, e.id, C.Next(w.tracks[e.id], e.event));
  }

  lemma InvShutdown(w: World, e: Event)
    requires Inv(w) && Legal(w, e) && e.Shutdown?
    ensures Inv(Next(w, e))
  {
    var v := Next(w, e);
    forall id | id in v.tracks ensures TrackOk(v, id) && (Fits(v) ==> v.tracks[id].conn.removed) {
      assert TrackOk(w, id);
      assert Fits(w) ==> (Listed(w, id) <==> Open(w, id));
      C.DestroyKeeps(w.tracks[id]);
    }
    forall fd, i, j | OpenOn(v, i, fd) && OpenOn(v, j, fd) ensures i == j {
      DestroyKeepsOpen(w, e, i, fd);
      DestroyKeepsOpen(w, e, j, fd);
      assert OpenOn(w, i, fd) && OpenOn(w, j, fd);
    }
  }

  /** The end of a server: it is gone, knows no connection, and each it knew is shut off. */
  lemma ShutdownEnds(w: World, id: nat)
    requires Inv(w) && w.serving
    ensures var v := Next(w, Shutdown);
            && !v.serving && v.connections == map[] && v.tracks.Keys == w.tracks.Keys
            && (id in w.tracks && Listed(w, id) ==>
                  v.tracks[id].conn.removed
                  && (v.tracks[id].conn.open ==> v.tracks[id].ledger.interest == Some(C.NO_EVENTS)))
            && (id in w.tracks && !Listed(w, id) ==> v.tracks[id] == w.tracks[id])
  {
    if id in w.tracks {
      assert TrackOk(w, id);
      C.DestroyKeeps(w.tracks[id]);
    }
  }

  lemma DestroyKeepsOpen(w: World, e: Event, id: nat, fd: nat)
    requires Legal(w, e) && e.Shutdown? && OpenOn(Next(w, e), id, fd)
    ensures OpenOn(w, id, fd)
  {
  }

  lemma InvNext(w: World, e: Event)
    requires Inv(w) && Legal(w, e)
    ensures Inv(Next(w, e))
  {
    match e
    case Accept(_, _) => InvAccept(w, e);
    case On(_, _) => InvOn(w, e);
    case Shutdown => InvShutdown(w, e);
  }

  ghost predicate LegalRun(w: World, events: seq<Event>)
    decreases |events|
  {
    events == [] || (Legal(w, events[0]) && LegalRun(Next(w, events[0]), events[1..]))
  }

  ghost function Run(w: World, events: seq<Event>): World
    requires LegalRun(w, events)
    decreases |events|
  {
    if events == [] then w else Run(Next(w, events[0]), events[1..])
  }

  lemma {:induction false} RunInv(w: World, events: seq<Event>)
    requires Inv(w) && LegalRun(w, events)
    ensures Inv(Run(w, events)) && Run(w, events).server == w.server
    decreases |events|
  {
    if events != [] {
      InvNext(w, events[0]);
      RunInv(Next(w, events[0]), events[1..]);
    }
  }

  lemma InitialInv(server: string)
    ensures Inv(Initial(server))
  {
    var w := Initial(server);
    assert forall id :: !Listed(w, id) && !Open(w, id);
  }

  /** Whatever the names: no connection touches a descriptor it has closed, none tells its server
      twice, and open connections never share a descriptor. */
  lemma ConnectionsOrderly(server: string, events: seq<Event>)
    requires LegalRun(Initial(server), events)
    ensures var w := Run(Initial(server), events);
            && (forall id :: id in w.tracks ==> w.tracks[id].ledger.orderly && w.tracks[id].ledger.notified <= 1)
            && FdsApart(w)
  {
    InitialInv(server);
    RunInv(Initial(server), events);
    var w := Run(Initial(server), events);
    forall id | id in w.tracks ensures w.tracks[id].ledger.orderly && w.tracks[id].ledger.notified <= 1 {
      assert TrackOk(w, id);
    }
  }

  /**
   As long as the names given fit: while the server lives, connections_ is exactly the connections
   that were established and are not closed yet, and a server that is gone is never called back.
   */
  lemma ServerKnowsOpen(server: string, events: seq<Event>)
    requires LegalRun(Initial(server), events) && Fits(Run(Initial(server), events))
    ensures var w := Run(Initial(server), events);
            (w.serving ==> ListsOpen(w)) && w.stray == 0
  {
    InitialInv(server);
    RunInv(Initial(server), events);
  }

  // ----- names that do not fit -----

  /** `k` connections come, the first on descriptor `fd`. */
  function Arrivals(fd: nat, k: nat): seq<Event>
    decreases k
  {
    if k == 0 then [] else [Accept(fd, [])] + Arrivals(fd + 1, k - 1)
  }

  /** Connections from the first on are open, each on its number, and the last is in the map. */
  ghost predicate AllOpen(w: World) {
    && w.serving && w.nextId > 0
    && (forall id :: 0 < id < w.nextId ==> OpenOn(w, id, id))
    && (forall id :: id in w.tracks && id in w.fds ==> id < w.nextId && w.fds[id] == id)
    && (w.nextId > 1 ==> Listed(w, w.nextId - 1))
  }

  lemma ArrivalOpen(w: World)
    requires AllOpen(w)
    ensures Legal(w, Accept(w.nextId, [])) && AllOpen(Next(w, Accept(w.nextId, [])))
  {
    BeginOpen([]);
    var v := Next(w, Accept(w.nextId, []));
    forall id | 0 < id < v.nextId ensures OpenOn(v, id, id) {
      assert id < w.nextId ==> OpenOn(w, id, id);
    }
  }

  lemma {:induction false} ArrivalsOpen(w: World, k: nat)
    requires AllOpen(w)
    ensures LegalRun(w, Arrivals(w.nextId, k))
    ensures var v := Run(w, Arrivals(w.nextId, k));
            AllOpen(v) && v.nextId == w.nextId + k && v.server == w.server
    decreases k
  {
    if k > 0 {
      var e := Accept(w.nextId, []);
      ArrivalOpen(w);
      ArrivalsOpen(Next(w, e), k - 1);
      assert Arrivals(w.nextId, k)[1..] == Arrivals(w.nextId + 1, k - 1);
    }
  }

  /** When the `n`-th name does not fit, a run in which the map has lost an open connection. */
  lemma OverwrittenName(server: string, n: nat) returns (events: seq<Event>)
    requires !NamesFit(server, n)
    ensures LegalRun(Initial(server), events)
    ensures var w := Run(Initial(server), events); w.nextId == n + 1 && w.serving && !ListsOpen(w)
  {
    events := Arrivals(1, n);
    ArrivalsOpen(Initial(server), n);
    var w := Run(Initial(server), events);
    var i := CutNameRepeats(server, n);
    assert Listed(w, n) && OpenOn(w, i, i);
    assert Open(w, i) && !Listed(w, i);
  }

  /** After `n` connections the map of a living server is exactly the open connections, in every
      run, if and only if the `n`-th name fits. */
  lemma ServerKnowsOpenExactly(server: string, n: nat)
    ensures (forall events | LegalRun(Initial(server), events)
                             && Run(Initial(server), events).nextId == n + 1
                             && Run(Initial(server), events).serving ::
               ListsOpen(Run(Initial(server), events)))
       <==> NamesFit(server, n)
  {
    if NamesFit(server, n) {
      forall events | LegalRun(Initial(server), events) && Run(Initial(server), events).nextId == n + 1
                      && Run(Initial(server), events).serving
        ensures ListsOpen(Run(Initial(server), events))
      {
        InitialInv(server);
        RunInv(Initial(server), events);
        ServerKnowsOpen(server, events);
      }
    } else {
      var events := OverwrittenName(server, n);
    }
  }
}

/** The classes: the channel, its loop, the connection and the server. */
module ConnectionObjects {
  import opened ConnectionNames
  import opened Connections

  /** The loop of one connection: what `updateChannel` and `removeChannel` ask of epoll, and all
      other effects, in order. */
  class Loop {
    ghost var log: seq<Effect>

    constructor ()
      ensures log == []
    {
      log := [];
    }

    ghost method Do(e: Effect)
      modifies this
      ensures log == old(log) + [e]
    {
      log := log + [e];
    }

    method UpdateChannel(channel: Channel)
      requires channel.loop == this
      modifies this, channel`index
      ensures channel.index == if old(channel.index) < 0 then 1 else old(channel.index)
      ensures log == old(log) + [if old(channel.index) < 0 then CtlAdd(channel.events) else CtlMod(channel.events)]
    {
      if channel.index < 0 {
        Do(CtlAdd(channel.events));
        channel.index := 1;
      } else {
        Do(CtlMod(channel.events));
      }
    }

    method RemoveChannel(channel: Channel)
      requires channel.loop == this
      modifies this, channel`index
      ensures channel.index == if old(channel.index) >= 0 then -1 else old(channel.index)
      ensures log == old(log) + if old(channel.index) >= 0 then [CtlDel] else []
    {
      if channel.index >= 0 {
        Do(CtlDel);
        channel.index := -1;
      }
    }
  }

  class Channel {
    const loop: Loop
    var events: Events
    var index: int
    var removed: bool

    constructor (loop: Loop)
      ensures this.loop == loop && events == NO_EVENTS && index == -1 && !removed
    {
      this.loop, events, index, removed := loop, NO_EVENTS, -1, false;
    }

    method Update()
      modifies this, loop
      ensures events == old(events) && removed == old(removed)
      ensures removed ==> index == old(index) && loop.log == old(loop.log)
      ensures !removed ==> index == if old(index) < 0 then 1 else old(index)
      ensures !removed ==> loop.log == old(loop.log) + [if old(index) < 0 then CtlAdd(events) else CtlMod(events)]
    {
      if removed { return; }
      loop.UpdateChannel(this);
    }

    /** enableReading, enableWriting, disableWriting and disableAll differ in the new interest only. */
    method SetInterest(interest: Events)
      modifies this, loop
      ensures removed == old(removed)
      ensures removed ==> events == old(events) && index == old(index) && loop.log == old(loop.log)
      ensures !removed ==> events == interest && index == if old(index) < 0 then 1 else old(index)
      ensures !removed ==> loop.log == old(loop.log) + [if old(index) < 0 then CtlAdd(interest) else CtlMod(interest)]
    {
      if removed { return; }
      events := interest;
      Update();
    }

    method Remove()
      modifies this, loop
      ensures removed && events == old(events)
      ensures index == if old(index) >= 0 then -1 else old(index)
      ensures loop.log == old(loop.log) + if old(index) >= 0 then [CtlDel] else []
    {
      removed := true;
      loop.RemoveChannel(this);
    }
  }

  class TcpServer {
    const loop: Loop
    const name: string
    var connections: map<string, TcpConnection>
    var nextConnId: nat

    constructor (loop: Loop, name: string)
      ensures this.loop == loop && this.name == name && connections == map[] && nextConnId == 1
    {
      this.loop, this.name, connections, nextConnId := loop, name, map[], 1;
    }

    method NewConnection(sockfd: nat, greetings: seq<string>) returns (conn: TcpConnection)
      modifies this, loop
      ensures fresh(conn) && conn.Separate() && conn.server == this && conn.loop == loop
      ensures conn.sockfd == sockfd && conn.name == NameOf(name, old(nextConnId))
      ensures nextConnId == old(nextConnId) + 1
      ensures connections == old(connections)[conn.name := conn]
      ensures conn.State() == Established(greetings).conn
      ensures loop.log == old(loop.log) + Established(greetings).log
    {
      var connName := NameOf(name, nextConnId);
      nextConnId := nextConnId + 1;
      conn := new TcpConnection(loop, this, sockfd, connName);
      connections := connections[connName := conn];
      conn.ConnectEstablished(greetings);
    }

    /** The close callback.  On the loop's thread runInLoop calls connectDestroyed at once. */
    method RemoveConnection(conn: TcpConnection)
      requires conn.Separate() && conn.server == this
      modifies this, conn.channel, conn.loop
      ensures connections == old(connections) - {conn.name}
      ensures conn.State() == ConnectDestroyed(old(conn.State())).conn
      ensures conn.loop.log == old(conn.loop.log) + ConnectDestroyed(old(conn.State())).log
    {
      connections := connections - {conn.name};
      conn.DestroyConnection();
    }
  }

  class TcpConnection {
    const loop: Loop
    const channel: Channel
    const server: TcpServer
    const name: string
    var sockfd: int
    var inputBuffer: string
    var outputBuffer: string

    ghost predicate Separate() {
      channel.loop == loop
    }

    ghost function State(): Conn
      reads this, channel
    {
      Conn(sockfd >= 0, channel.events, channel.index >= 0, channel.removed, inputBuffer, outputBuffer)
    }

    /** The server's map once this connection may have closed: it knew it as long as it was open. */
    ghost function Known(before: map<string, TcpConnection>, fd: int): map<string, TcpConnection>
      reads this
    {
      if fd >= 0 && sockfd < 0 then before - {name} else before
    }

    ghost function Outcome(): Result
      reads this, channel, loop
    {
      Result(State(), loop.log)
    }

    constructor (loop: Loop, server: TcpServer, sockfd: nat, name: string)
      ensures Separate() && this.loop == loop && this.server == server && this.name == name && this.sockfd == sockfd
      ensures fresh(channel) && State() == UNCONNECTED
    {
      this.loop, this.server, this.name, this.sockfd := loop, server, name, sockfd;
      channel := new Channel(loop);
      inputBuffer, outputBuffer := "", "";
    }

    method DestroyConnection()
      requires Separate()
      modifies channel, loop
      ensures Outcome() == Then(old(Outcome()), ConnectDestroyed(old(State())))
    {
      if channel.index >= 0 {
        channel.SetInterest(NO_EVENTS);
        channel.removed := true;
      }
    }

    method SendMessage(message: string)
      requires Separate()
      modifies this, channel, loop
      ensures Outcome() == Then(old(Outcome()), SendInLoop(old(State()), message))
      ensures sockfd == old(sockfd)
    {
      if sockfd < 0 || channel.removed { return; }
      outputBuffer := outputBuffer + message;
      if !channel.events.writing {
        channel.SetInterest(channel.events.(writing := true));
      }
    }

    method CloseConnection()
      requires Separate()
      modifies this, channel, loop, server
      ensures Outcome() == Then(old(Outcome()), HandleClose(old(State())))
      ensures server.connections == Known(old(server.connections), old(sockfd))
    {
      if sockfd < 0 { return; }
      channel.Remove();
      loop.Do(NotifyClosed);
      server.RemoveConnection(this);
      loop.Do(Close);
      sockfd := -1;
    }

    method SendMessages(messages: seq<string>)
      requires Separate()
      modifies this, channel, loop
      ensures Outcome() == Then(old(Outcome()), SendAll(old(State()), messages))
      ensures sockfd == old(sockfd)
    {
      ghost var start, before := State(), loop.log;
      var i := 0;
      ghost var rest := messages;
      assert messages[0..] == messages;
      while i < |messages|
        invariant 0 <= i <= |messages| && rest == messages[i..] && sockfd == old(sockfd)
        invariant SendAll(start, messages).conn == SendAll(State(), rest).conn
        invariant before + SendAll(start, messages).log == loop.log + SendAll(State(), rest).log
      {
        assert rest[1..] == messages[i + 1..];
        SendMessage(messages[i]);
        rest := rest[1..];
        i := i + 1;
      }
    }

    /** `connectEstablished`; a connection callback, if there is one, sends `greetings`. */
    method ConnectEstablished(greetings: seq<string>)
      requires Separate() && State() == UNCONNECTED
      modifies this, channel, loop
      ensures Outcome() == Then(old(Outcome()), Established(greetings))
      ensures sockfd == old(sockfd)
    {
      channel.SetInterest(channel.events.(reading := true));
      SendMessages(greetings);
    }

    /** The message callback, which answers with `replies` from the loop's thread. */
    method OnMessage(replies: seq<string>)
      requires Separate()
      modifies this, channel, loop
      ensures State() == SendAll(old(State()), replies).conn && sockfd == old(sockfd)
      ensures loop.log == old(loop.log) + [Deliver(old(inputBuffer))] + SendAll(old(State()), replies).log
    {
      loop.Do(Deliver(inputBuffer));
      SendMessages(replies);
    }

    /** The branch of a read that brought bytes. */
    method Received(bytes: string, replies: seq<string>)
      requires Separate() && Sendable(State())
      modifies this, channel, loop
      ensures Outcome() == Then(old(Outcome()), HandleRead(old(State()), Data(bytes), replies))
      ensures sockfd == old(sockfd)
    {
      ghost var before, sent := loop.log, SendAll(State().(input := inputBuffer + bytes), replies);
      loop.Do(Read(bytes));
      inputBuffer := inputBuffer + bytes;
      OnMessage(replies);
      inputBuffer := "";
    }

    method ReadReady(r: ReadResult, replies: seq<string>)
      requires Separate()
      modifies this, channel, loop, server
      ensures Outcome() == Then(old(Outcome()), HandleRead(old(State()), r, replies))
      ensures server.connections == Known(old(server.connections), old(sockfd))
    {
      if sockfd < 0 || channel.removed { return; }
      match r {
        case Data(bytes) => Received(bytes, replies);
        case Eof => loop.Do(Read("")); CloseConnection();
        case ReadAgain => loop.Do(Read(""));
        case ReadError => loop.Do(Read("")); CloseConnection();
      }
    }

    method WriteReady(w: WriteResult)
      requires Separate()
      modifies this, channel, loop, server
      ensures Outcome() == Then(old(Outcome()), HandleWrite(old(State()), w))
      ensures server.connections == Known(old(server.connections), old(sockfd))
    {
      if sockfd < 0 || channel.removed { return; }
      if channel.events.writing {
        match w {
          case Wrote(room) =>
            var n := Taken(outputBuffer, room);
            loop.Do(Write(outputBuffer[..n]));
            if n > 0 {
              outputBuffer := outputBuffer[n..];
              if outputBuffer == "" {
                channel.SetInterest(channel.events.(writing := false));
              }
            } else {
              CloseConnection();
            }
          case WriteAgain => loop.Do(Write(""));
          case WriteError => loop.Do(Write("")); CloseConnection();
        }
      }
    }

    /** The two checks of `Channel::handleEvent` that close. */
    method CloseChecks(m: Mask)
      requires Separate()
      modifies this, channel, loop, server
      ensures Outcome() == Then(old(Outcome()), Closings(old(State()), m))
      ensures server.connections == Known(old(server.connections), old(sockfd))
    {
      if m.hup && !m.input {
        CloseConnection();
      }
      if m.err || m.rdhup {
        CloseConnection();
      }
    }

    /** The closing checks and the read callback. */
    method CloseOrRead(m: Mask, io: Io)
      requires Separate()
      modifies this, channel, loop, server
      ensures Outcome() == Then(old(Outcome()), BeforeWrite(old(State()), m, io))
      ensures server.connections == Known(old(server.connections), old(sockfd))
    {
      CloseChecks(m);
      if m.input || m.pri || m.rdhup {
        ReadReady(io.read, io.replies);
      }
    }

    /** `Channel::handleEvent` with this connection's three callbacks. */
    method Dispatch(m: Mask, io: Io)
      requires Separate()
      modifies this, channel, loop, server
      ensures Outcome() == Then(old(Outcome()), HandleEvent(old(State()), m, io))
      ensures server.connections == Known(old(server.connections), old(sockfd))
    {
      if channel.removed { return; }
      ThenAssociates(Outcome(), BeforeWrite(State(), m, io), HandleWrite(BeforeWrite(State(), m, io).conn, io.write));
      CloseOrRead(m, io);
      if m.output {
        WriteReady(io.write);
      }
    }
  }
}
