/**
 One event loop and everything on it: the hand-off of src/net/eventloop.cpp, and servers whose
 connections (src/net/tcp_server.cpp, src/net/tcp_connection.cpp) the functors and the events of
 the loop act on.  Worker threads post while the loop runs; a functor takes effect when it is run.
 */
module Reactors {
  import C = Connections
  import L = EventLoops
  import S = Servers

  /** A connection: which server's, and its number there. */
  datatype Name = Name(server: nat, number: nat)

  /** What a functor was made to do: `send` from another thread, or something else. */
  datatype Task = SendTo(to: Name, text: string) | Otherwise

  /** A send that reached a connection: from a worker, or made on the loop's own thread. */
  datatype Piece = Handed(f: L.Functor) | OnLoop(text: string)

  /** `streams` is the history: what was sent on each connection, in the order it took effect. */
  datatype Reactor = Reactor(loop: L.Loop, servers: seq<S.World>, streams: map<Name, seq<Piece>>)

  datatype Label =
    | Hand(l: L.Label)                                      // a step of the hand-off
    | Accept(server: nat, fd: nat, greetings: seq<string>)  // the acceptor's event
    | Ready(to: Name, mask: C.Mask, io: C.Io)               // a connection's event
    | SendHere(to: Name, message: string)                   // a send on the loop's own thread
    | Shutdown(server: nat)

  predicate Known(r: Reactor, n: Name) {
    n.server < |r.servers| && n.number in r.servers[n.server].tracks
  }

  function TrackOf(r: Reactor, n: Name): C.Track
    requires Known(r, n)
  {
    r.servers[n.server].tracks[n.number]
  }

  function Stream(r: Reactor, n: Name): seq<Piece> {
    if n in r.streams then r.streams[n] else []
  }

  /** The kernel gives out a descriptor only while no open connection of any server has it. */
  ghost predicate FdFree(r: Reactor, fd: nat) {
    forall n :: Known(r, n) ==> !S.OpenOn(r.servers[n.server], n.number, fd)
  }

  /** Events are handled while the loop dispatches; a closure that sends holds its connection. */
  ghost predicate Enabled(r: Reactor, l: Label, task: L.Functor -> Task) {
    match l
    case Hand(h) => L.Enabled(r.loop, h) && (h.Post? && task(h.f).SendTo? ==> Known(r, task(h.f).to))
    case Accept(i, fd, greetings) =>
      r.loop.phase.Dispatching? && i < |r.servers| && r.servers[i].serving && FdFree(r, fd)
    case Ready(n, _, _) => r.loop.phase.Dispatching? && Known(r, n)
    case SendHere(n, _) => (r.loop.phase.Dispatching? || r.loop.phase.Running?) && Known(r, n)
    case Shutdown(i) => r.loop.phase != L.Waiting && i < |r.servers| && r.servers[i].serving
  }

  /** Something happens to a connection; `p` is what it sends thereby. */
  ghost function Act(r: Reactor, n: Name, e: C.Event, p: Piece): Reactor
    requires Known(r, n) && !e.Destroy?
  {
    r.(servers := r.servers[n.server := S.Next(r.servers[n.server], S.On(n.number, e))],
       streams := r.streams[n := Stream(r, n) + [p]])
  }

  ghost function Perform(r: Reactor, f: L.Functor, task: L.Functor -> Task): Reactor {
    match task(f)
    case SendTo(n, text) => if Known(r, n) then Act(r, n, C.Send(text), Handed(f)) else r
    case Otherwise => r
  }

  ghost function Accepted(r: Reactor, i: nat, fd: nat, greetings: seq<string>): Reactor
    requires i < |r.servers| && r.servers[i].serving && FdFree(r, fd)
  {
    assert S.Legal(r.servers[i], S.Accept(fd, greetings)) by { AcceptLegal(r, i, fd, greetings); }
    r.(servers := r.servers[i := S.Next(r.servers[i], S.Accept(fd, greetings))],
       streams := r.streams[Name(i, r.servers[i].nextId) := [OnLoop(C.Joined(greetings))]])
  }

  lemma AcceptLegal(r: Reactor, i: nat, fd: nat, greetings: seq<string>)
    requires i < |r.servers| && r.servers[i].serving && FdFree(r, fd)
    ensures S.Legal(r.servers[i], S.Accept(fd, greetings))
  {
    var w := r.servers[i];
    forall id | id in w.tracks && id in w.fds ensures !(w.tracks[id].conn.open && w.fds[id] == fd) {
      assert Known(r, Name(i, id));
      assert !S.OpenOn(w, id, fd);
    }
  }

  ghost function Next(r: Reactor, l: Label, task: L.Functor -> Task): Reactor
    requires Enabled(r, l, task)
  {
    match l
    case Hand(h) =>
      var after := r.(loop := L.Next(r.loop, h));
      if h.RunOne? then Perform(after, r.loop.phase.rest[0], task) else after
    case Accept(i, fd, greetings) => Accepted(r, i, fd, greetings)
    case Ready(n, m, io) => Act(r, n, C.Ready(m, io), OnLoop(C.OfferedBy(C.Ready(m, io))))
    case SendHere(n, message) => Act(r, n, C.Send(message), OnLoop(message))
    case Shutdown(i) => r.(servers := r.servers[i := S.Next(r.servers[i], S.Shutdown)])
  }

  ghost predicate Legal(r: Reactor, run: seq<Label>, task: L.Functor -> Task)
    decreases |run|
  {
    run == [] || (Enabled(r, run[0], task) && Legal(Next(r, run[0], task), run[1..], task))
  }

  ghost function Run(r: Reactor, run: seq<Label>, task: L.Functor -> Task): Reactor
    requires Legal(r, run, task)
    decreases |run|
  {
    if run == [] then r else Run(Next(r, run[0], task), run[1..], task)
  }

  /** Servers by their names, on a loop that has not started. */
  function Initial(servers: seq<string>): Reactor {
    Reactor(L.INITIAL, seq(|servers|, i requires 0 <= i < |servers| => S.Initial(servers[i])), map[])
  }

  // ----- what was sent -----

  function TextOf(p: Piece, task: L.Functor -> Task): string {
    match p
    case Handed(f) => if task(f).SendTo? then task(f).text else ""
    case OnLoop(text) => text
  }

  /** All that was sent, one after the other. */
  function Text(ps: seq<Piece>, task: L.Functor -> Task): string {
    if ps == [] then "" else Text(ps[..|ps| - 1], task) + TextOf(ps[|ps| - 1], task)
  }

  /** The functors among what was sent. */
  function HandedOf(ps: seq<Piece>): seq<L.Functor> {
    if ps == [] then []
    else HandedOf(ps[..|ps| - 1]) + if ps[|ps| - 1].Handed? then [ps[|ps| - 1].f] else []
  }

  predicate AimedAt(f: L.Functor, n: Name, task: L.Functor -> Task) {
    task(f).SendTo? && task(f).to == n
  }

  /** The functors that send on a connection. */
  function Aimed(fs: seq<L.Functor>, n: Name, task: L.Functor -> Task): seq<L.Functor> {
    if fs == [] then []
    else Aimed(fs[..|fs| - 1], n, task) + if AimedAt(fs[|fs| - 1], n, task) then [fs[|fs| - 1]] else []
  }

  lemma PieceAdded(ps: seq<Piece>, p: Piece, task: L.Functor -> Task)
    ensures Text(ps + [p], task) == Text(ps, task) + TextOf(p, task)
    ensures HandedOf(ps + [p]) == HandedOf(ps) + if p.Handed? then [p.f] else []
  {
    assert (ps + [p])[..|ps|] == ps;
  }

  lemma FunctorAdded(fs: seq<L.Functor>, f: L.Functor, n: Name, task: L.Functor -> Task)
    ensures Aimed(fs + [f], n, task) == Aimed(fs, n, task) + if AimedAt(f, n, task) then [f] else []
  {
    assert (fs + [f])[..|fs|] == fs;
  }

  lemma {:induction false} AimedAppend(a: seq<L.Functor>, b: seq<L.Functor>, n: Name, task: L.Functor -> Task)
    ensures Aimed(a + b, n, task) == Aimed(a, n, task) + Aimed(b, n, task)
    decreases |b|
  {
    if b == [] {
      assert a + b == a;
    } else {
      AimedAppend(a, b[..|b| - 1], n, task);
      assert (a + b)[..|a + b| - 1] == a + b[..|b| - 1];
    }
  }

  // ----- what every run keeps -----

  /** A connection has taken on all of `sent`, or once it can no longer send a part from its start. */
  ghost predicate TookOn(t: C.Track, sent: string) {
    t.accepted <= sent && (C.Sendable(t.conn) ==> t.accepted == sent)
  }

  /** What was sent on a connection contains the functors aimed at it, in the order they ran. */
  ghost predicate StreamOk(r: Reactor, n: Name, task: L.Functor -> Task) {
    && HandedOf(Stream(r, n)) == Aimed(r.loop.ran, n, task)
    && (if Known(r, n) then TookOn(TrackOf(r, n), Text(Stream(r, n), task)) else Stream(r, n) == [])
  }

  ghost predicate TargetsKnown(r: Reactor, fs: seq<L.Functor>, task: L.Functor -> Task) {
    forall f :: f in fs && task(f).SendTo? ==> Known(r, task(f).to)
  }

  ghost predicate ServersOk(r: Reactor) {
    forall i :: 0 <= i < |r.servers| ==> S.Inv(r.servers[i])
  }

  ghost predicate Inv(r: Reactor, task: L.Functor -> Task) {
    && L.Inv(r.loop) && ServersOk(r)
    && TargetsKnown(r, r.loop.posted, task)
    && forall n :: StreamOk(r, n, task)
  }

  lemma TookOnNext(t: C.Track, e: C.Event, sent: string)
    requires C.Inv(t) && TookOn(t, sent)
    ensures TookOn(C.Next(t, e), sent + C.OfferedBy(e))
  {
  }

  lemma TrackInv(r: Reactor, n: Name)
    requires ServersOk(r) && Known(r, n)
    ensures C.Inv(TrackOf(r, n))
  {
    assert S.TrackOk(r.servers[n.server], n.number);
  }

  lemma ActTracks(r: Reactor, n: Name, e: C.Event, p: Piece, q: Name)
    requires Known(r, n) && !e.Destroy?
    ensures var r' := Act(r, n, e, p);
            && (Known(r', q) <==> Known(r, q))
            && (Known(r, q) ==> TrackOf(r', q) == if q == n then C.Next(TrackOf(r, n), e) else TrackOf(r, q))
            && Stream(r', q) == Stream(r, q) + if q == n then [p] else []
  {
  }

  lemma ActServers(r: Reactor, n: Name, e: C.Event, p: Piece)
    requires Known(r, n) && !e.Destroy? && ServersOk(r)
    ensures ServersOk(Act(r, n, e, p))
  {
    S.InvNext(r.servers[n.server], S.On(n.number, e));
  }

  /** An event of a connection, on the loop's own thread. */
  lemma OnLoopKeeps(r: Reactor, n: Name, e: C.Event, task: L.Functor -> Task)
    requires Inv(r, task) && Known(r, n) && !e.Destroy?
    ensures Inv(Act(r, n, e, OnLoop(C.OfferedBy(e))), task)
  {
    var p := OnLoop(C.OfferedBy(e));
    var r' := Act(r, n, e, p);
    ActServers(r, n, e, p);
    forall q ensures StreamOk(r', q, task) && (Known(r', q) <==> Known(r, q)) {
      assert StreamOk(r, q, task);
      ActTracks(r, n, e, p, q);
      if q == n {
        TrackInv(r, n);
        PieceAdded(Stream(r, n), p, task);
        TookOnNext(TrackOf(r, n), e, Text(Stream(r, n), task));
      } else {
        assert Stream(r, q) + [] == Stream(r, q);
      }
    }
  }

  /** A functor is run: it was posted, so the connection it sends on exists. */
  lemma RunOneKeeps(r: Reactor, task: L.Functor -> Task)
    requires Inv(r, task) && Enabled(r, Hand(L.RunOne), task)
    ensures Inv(Next(r, Hand(L.RunOne), task), task)
  {
    var f, after := r.loop.phase.rest[0], r.(loop := L.Next(r.loop, L.RunOne));
    var r' := Next(r, Hand(L.RunOne), task);
    L.InvNext(r.loop, L.RunOne);
    RestPosted(r.loop);
    if task(f).SendTo? {
      ActServers(after, task(f).to, C.Send(task(f).text), Handed(f));
    }
    forall q ensures StreamOk(r', q, task) && (Known(r', q) <==> Known(r, q)) {
      RunOneStream(r, q, task);
    }
  }

  lemma RestPosted(s: L.Loop)
    requires L.Fifo(s) && s.phase.Running? && s.phase.rest != []
    ensures s.phase.rest[0] in s.posted
  {
    assert s.posted[|s.ran|] == s.phase.rest[0];
  }

  lemma RunOneStream(r: Reactor, q: Name, task: L.Functor -> Task)
    requires Inv(r, task) && Enabled(r, Hand(L.RunOne), task)
    ensures var r' := Next(r, Hand(L.RunOne), task);
            StreamOk(r', q, task) && (Known(r', q) <==> Known(r, q))
  {
    var f, after := r.loop.phase.rest[0], r.(loop := L.Next(r.loop, L.RunOne));
    assert StreamOk(r, q, task);
    FunctorAdded(r.loop.ran, f, q, task);
    RestPosted(r.loop);
    assert Stream(r, q) + [] == Stream(r, q);
    if task(f).SendTo? {
      var n, e := task(f).to, C.Send(task(f).text);
      assert Known(after, n);
      ActTracks(after, n, e, Handed(f), q);
      if q == n {
        TrackInv(r, n);
        PieceAdded(Stream(r, n), Handed(f), task);
        TookOnNext(TrackOf(r, n), e, Text(Stream(r, n), task));
      }
    }
  }

  lemma HandKeeps(r: Reactor, h: L.Label, task: L.Functor -> Task)
    requires Inv(r, task) && Enabled(r, Hand(h), task) && !h.RunOne?
    ensures Inv(Next(r, Hand(h), task), task)
  {
    var r' := Next(r, Hand(h), task);
    L.InvNext(r.loop, h);
    forall q ensures StreamOk(r', q, task) {
      assert StreamOk(r, q, task);
    }
  }

  lemma AcceptTracks(r: Reactor, i: nat, fd: nat, greetings: seq<string>, q: Name)
    requires ServersOk(r) && i < |r.servers| && r.servers[i].serving && FdFree(r, fd)
    ensures var r', n := Accepted(r, i, fd, greetings), Name(i, r.servers[i].nextId);
            && !Known(r, n)
            && (Known(r', q) <==> Known(r, q) || q == n)
            && (Known(r', q) ==> TrackOf(r', q) == if q == n then C.Begin(greetings) else TrackOf(r, q))
            && Stream(r', q) == if q == n then [OnLoop(C.Joined(greetings))] else Stream(r, q)
  {
    var w := r.servers[i];
    assert w.nextId in w.tracks ==> S.TrackOk(w, w.nextId);
    AcceptLegal(r, i, fd, greetings);
  }

  lemma AcceptKeeps(r: Reactor, i: nat, fd: nat, greetings: seq<string>, task: L.Functor -> Task)
    requires Inv(r, task) && Enabled(r, Accept(i, fd, greetings), task)
    ensures Inv(Accepted(r, i, fd, greetings), task)
  {
    var r' := Accepted(r, i, fd, greetings);
    AcceptLegal(r, i, fd, greetings);
    S.InvNext(r.servers[i], S.Accept(fd, greetings));
    forall q ensures StreamOk(r', q, task) && (Known(r, q) ==> Known(r', q)) {
      assert StreamOk(r, q, task);
      AcceptTracks(r, i, fd, greetings, q);
      AcceptTracks(r, i, fd, greetings, Name(i, r.servers[i].nextId));
    }
  }

  lemma ShutdownKeeps(r: Reactor, i: nat, task: L.Functor -> Task)
    requires Inv(r, task) && Enabled(r, Shutdown(i), task)
    ensures Inv(Next(r, Shutdown(i), task), task)
  {
    var r' := Next(r, Shutdown(i), task);
    S.InvNext(r.servers[i], S.Shutdown);
    forall q ensures StreamOk(r', q, task) && (Known(r', q) <==> Known(r, q)) {
      assert StreamOk(r, q, task);
      if Known(r, q) {
        TrackInv(r, q);
        TookOnNext(TrackOf(r, q), C.Destroy, Text(Stream(r, q), task));
        assert Text(Stream(r, q), task) + "" == Text(Stream(r, q), task);
      }
    }
  }

  lemma InvNext(r: Reactor, l: Label, task: L.Functor -> Task)
    requires Inv(r, task) && Enabled(r, l, task)
    ensures Inv(Next(r, l, task), task)
  {
    match l
    case Hand(h) =>
      if h.RunOne? {
        RunOneKeeps(r, task);
      } else {
        HandKeeps(r, h, task);
      }
    case Accept(i, fd, greetings) => AcceptKeeps(r, i, fd, greetings, task);
    case Ready(n, m, io) => OnLoopKeeps(r, n, C.Ready(m, io), task);
    case SendHere(n, message) => OnLoopKeeps(r, n, C.Send(message), task);
    case Shutdown(i) => ShutdownKeeps(r, i, task);
  }

  lemma {:induction false} RunInv(r: Reactor, run: seq<Label>, task: L.Functor -> Task)
    requires Inv(r, task) && Legal(r, run, task)
    ensures Inv(Run(r, run, task), task)
    decreases |run|
  {
    if run != [] {
      InvNext(r, run[0], task);
      RunInv(Next(r, run[0], task), run[1..], task);
    }
  }

  lemma InitialInv(servers: seq<string>, task: L.Functor -> Task)
    ensures Inv(Initial(servers), task)
  {
    forall i | 0 <= i < |servers| ensures S.Inv(Initial(servers).servers[i]) {
      S.InitialInv(servers[i]);
    }
  }

  // ----- the promises -----

  /**
   In every joint run, for every connection of every server: what was written and what waits is
   everything sent on it so far, worker's functors and sends of the loop's own thread as they took
   effect; once it can no longer send, it is a part of that from its start.  The functors in it are
   exactly those aimed at it among all that ran, each once and in that order.
   */
  lemma ResponsesInOrder(servers: seq<string>, run: seq<Label>, task: L.Functor -> Task, n: Name)
    requires Legal(Initial(servers), run, task) && Known(Run(Initial(servers), run, task), n)
    ensures var r := Run(Initial(servers), run, task);
            var t := TrackOf(r, n);
            && t.ledger.written + t.conn.output <= Text(Stream(r, n), task)
            && (C.Sendable(t.conn) ==> t.ledger.written + t.conn.output == Text(Stream(r, n), task))
            && HandedOf(Stream(r, n)) == Aimed(r.loop.ran, n, task)
  {
    InitialInv(servers, task);
    RunInv(Initial(servers), run, task);
    var r := Run(Initial(servers), run, task);
    assert StreamOk(r, n, task);
    TrackInv(r, n);
  }

  /** What one worker sends on a connection enters its stream in that worker's order, nothing skipped. */
  lemma WorkerOrder(servers: seq<string>, run: seq<Label>, task: L.Functor -> Task, n: Name, worker: nat)
    requires Legal(Initial(servers), run, task) && Known(Run(Initial(servers), run, task), n)
    ensures var r := Run(Initial(servers), run, task);
            L.From(HandedOf(Stream(r, n)), worker) <= L.From(Aimed(r.loop.posted, n, task), worker)
  {
    InitialInv(servers, task);
    RunInv(Initial(servers), run, task);
    var r := Run(Initial(servers), run, task);
    var s := r.loop;
    assert StreamOk(r, n, task);
    var left := L.RanFirst(s);
    AimedAppend(s.ran, left, n, task);
    L.FromAppend(Aimed(s.ran, n, task), Aimed(left, n, task), worker);
  }

  /** When nothing is left to run, every worker's sends have reached their connections. */
  lemma NothingLeft(servers: seq<string>, run: seq<Label>, task: L.Functor -> Task, n: Name)
    requires Legal(Initial(servers), run, task) && Known(Run(Initial(servers), run, task), n)
    requires var s := Run(Initial(servers), run, task).loop; L.Rest(s) == [] && s.pending == []
    ensures var r := Run(Initial(servers), run, task);
            HandedOf(Stream(r, n)) == Aimed(r.loop.posted, n, task)
  {
    InitialInv(servers, task);
    RunInv(Initial(servers), run, task);
    var r := Run(Initial(servers), run, task);
    assert StreamOk(r, n, task);
    assert r.loop.ran + [] + [] == r.loop.ran;
  }

  // ----- what each joint step does -----

  /** A connection's event happens to that connection and no other, and its sends enter its stream. */
  lemma EventHappens(r: Reactor, n: Name, m: C.Mask, io: C.Io, q: Name, task: L.Functor -> Task)
    requires Enabled(r, Ready(n, m, io), task)
    ensures var r', e := Next(r, Ready(n, m, io), task), C.Ready(m, io);
            && r'.loop == r.loop
            && (Known(r', q) <==> Known(r, q))
            && (Known(r, q) ==> TrackOf(r', q) == if q == n then C.Next(TrackOf(r, n), e) else TrackOf(r, q))
            && Stream(r', q) == Stream(r, q) + if q == n then [OnLoop(C.OfferedBy(e))] else []
  {
    ActTracks(r, n, C.Ready(m, io), OnLoop(C.OfferedBy(C.Ready(m, io))), q);
  }

  /** A send on the loop's own thread likewise. */
  lemma SendHappens(r: Reactor, n: Name, message: string, q: Name, task: L.Functor -> Task)
    requires Enabled(r, SendHere(n, message), task)
    ensures var r' := Next(r, SendHere(n, message), task);
            && r'.loop == r.loop
            && (Known(r, q) ==> Known(r', q)
                                && TrackOf(r', q) == (if q == n then C.Next(TrackOf(r, n), C.Send(message))
                                                      else TrackOf(r, q)))
            && Stream(r', q) == Stream(r, q) + if q == n then [OnLoop(message)] else []
  {
    ActTracks(r, n, C.Send(message), OnLoop(message), q);
  }

  /** An accept makes one new connection, greeted. */
  lemma AcceptHappens(r: Reactor, i: nat, fd: nat, greetings: seq<string>, q: Name, task: L.Functor -> Task)
    requires Inv(r, task) && Enabled(r, Accept(i, fd, greetings), task)
    ensures var r', n := Next(r, Accept(i, fd, greetings), task), Name(i, r.servers[i].nextId);
            && r'.loop == r.loop && !Known(r, n)
            && (Known(r', q) <==> Known(r, q) || q == n)
            && (Known(r', q) ==> TrackOf(r', q) == if q == n then C.Begin(greetings) else TrackOf(r, q))
  {
    AcceptTracks(r, i, fd, greetings, q);
  }

  /** The end of a server is the end of that server; the hand-off goes on. */
  lemma ShutdownHappens(r: Reactor, i: nat, task: L.Functor -> Task)
    requires Enabled(r, Shutdown(i), task)
    ensures var r' := Next(r, Shutdown(i), task);
            && r'.loop == r.loop && !r'.servers[i].serving && |r'.servers| == |r.servers|
            && forall j :: 0 <= j < |r.servers| && j != i ==> r'.servers[j] == r.servers[j]
  {
  }

  /** A functor that is run sends on its connection. */
  lemma FunctorSends(r: Reactor, n: Name, text: string, task: L.Functor -> Task)
    requires Enabled(r, Hand(L.RunOne), task) && Known(r, n) && task(r.loop.phase.rest[0]) == SendTo(n, text)
    ensures var r' := Next(r, Hand(L.RunOne), task);
            && Known(r', n) && TrackOf(r', n) == C.Next(TrackOf(r, n), C.Send(text))
            && Text(Stream(r', n), task) == Text(Stream(r, n), task) + text
  {
    var f, after := r.loop.phase.rest[0], r.(loop := L.Next(r.loop, L.RunOne));
    ActTracks(after, n, C.Send(text), Handed(f), n);
    PieceAdded(Stream(r, n), Handed(f), task);
  }

  /**
   A response reaches the peer: the next functor to run, if it sends on an open connection, has been
   sent when it has run; and writable events with enough room then write it out, behind everything
   that was sent there before and with nothing left.
   */
  lemma ResponseWritten(r: Reactor, n: Name, text: string, results: seq<C.WriteResult>, task: L.Functor -> Task)
    requires Inv(r, task) && Enabled(r, Hand(L.RunOne), task)
    requires task(r.loop.phase.rest[0]) == SendTo(n, text) && text != ""
    requires Known(r, n) && C.Sendable(TrackOf(r, n).conn) && C.ArmedExactly(TrackOf(r, n).conn)
    requires |TrackOf(r, n).conn.output| + |text| <= C.Room(results)
    requires forall i :: 0 <= i < |results| ==>
               results[i] == C.WriteAgain || (results[i].Wrote? && results[i].room > 0)
    ensures Known(Next(r, Hand(L.RunOne), task), n)
    ensures var u := C.Run(TrackOf(Next(r, Hand(L.RunOne), task), n), C.WritableEvents(results));
            && u.conn.output == "" && C.Sendable(u.conn)
            && u.ledger.written == Text(Stream(r, n), task) + text
  {
    FunctorSends(r, n, text, task);
    TrackInv(r, n);
    assert StreamOk(r, n, task);
    C.SentThenWritten(TrackOf(r, n), text, results);
  }

  // ----- what is left at the end -----

  /** The steps of the hand-off in a joint run. */
  function Hands(run: seq<Label>): seq<L.Label>
    decreases |run|
  {
    if run == [] then [] else (if run[0].Hand? then [run[0].l] else []) + Hands(run[1..])
  }

  /** A joint run is a run of the hand-off, with everything else in between. */
  lemma {:induction false} HandsRun(r: Reactor, run: seq<Label>, task: L.Functor -> Task)
    requires Legal(r, run, task)
    ensures L.Legal(r.loop, Hands(run)) && Run(r, run, task).loop == L.Run(r.loop, Hands(run))
    decreases |run|
  {
    if run != [] {
      var rest := run[1..];
      HandsRun(Next(r, run[0], task), rest, task);
      if run[0].Hand? {
        L.OneStep(r.loop, run[0].l, Hands(rest));
      } else {
        assert [] + Hands(rest) == Hands(rest);
      }
    }
  }

  /** When the loop has exited, the sends that never reached a connection are exactly those posted
      to it after the last swap, whichever workers they came from. */
  lemma LostAtExit(servers: seq<string>, run: seq<Label>, task: L.Functor -> Task, n: Name)
    requires Legal(Initial(servers), run, task) && Known(Run(Initial(servers), run, task), n)
    requires Run(Initial(servers), run, task).loop.phase == L.Exited
    ensures var r, hands := Run(Initial(servers), run, task), Hands(run);
            Aimed(L.Posts(hands), n, task) == HandedOf(Stream(r, n)) + Aimed(L.Late(hands), n, task)
  {
    ResponsesInOrder(servers, run, task, n);
    HandsRun(Initial(servers), run, task);
    L.ExitLeavesPending(Hands(run));
    AimedAppend(Run(Initial(servers), run, task).loop.ran, L.Late(Hands(run)), n, task);
  }
}
