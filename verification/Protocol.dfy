/**
  The chat system as a whole: the server, any number of clients with two threads each, and a socket
  per connection with a queue in each direction. A run is any sequence of steps; a step whose guard
  fails does nothing.
 */
module Protocol {
  import opened Messages
  import opened ServerCore
  import opened ClientCore

  /**
    One connection: `inbox` is everything written to the server, of which it has read `taken`;
    `sent` is everything the server wrote, starting at position `start` of the broadcast log.
   */
  datatype Conn = Conn(accepted: bool, open: bool, inbox: seq<Instance>, taken: nat, sent: seq<Instance>, start: nat)

  /**
    `log` records every reply and `asker` whose request it answers. `faulty` and `rogue` remember
    whether a `recv` or `write` ever failed and whether a request ever came from outside the clients.
   */
  datatype System = System(
    srv: ServerState<nat>, crashed: bool, conns: seq<Conn>, clients: seq<Client>,
    log: seq<Instance>, asker: seq<nat>, faulty: bool, rogue: bool)

  datatype Step =
    | AcceptSocket(c: nat)
    | ReadRequest(c: nat, now: int, failing: set<nat>)
    | ReadEnd(c: nat)
    | ReadError(c: nat)
    | Stdin(line: string)
    | OfClient(k: nat, action: Action)
    | Dial
    | Outsider(c: nat, request: Instance)

  predicate ListedExist(s: System) {
    forall i :: 0 <= i < |s.srv.list| ==> s.srv.list[i] < |s.conns|
  }

  // ----- the server's steps

  function Written(conn: Conn, reply: Instance, ok: bool): Conn {
    if ok then conn.(sent := conn.sent + [reply]) else conn.(open := false)
  }

  /** The broadcast loop; writing to a closed socket throws, which ends the loop and the server. */
  function Broadcast(conns: seq<Conn>, list: seq<nat>, reply: Instance, failing: set<nat>): (r: (seq<Conn>, bool))
    requires forall i :: 0 <= i < |list| ==> list[i] < |conns|
    ensures |r.0| == |conns|
    decreases |list|
  {
    if list == [] then (conns, false)
    else if !conns[list[0]].open then (conns, true)
    else Broadcast(conns[list[0] := Written(conns[list[0]], reply, list[0] !in failing)], list[1..], reply, failing)
  }

  /** A registered socket that `select` may report. */
  predicate CanRead(s: System, c: nat) {
    s.srv.active && !s.crashed && c in s.srv.waiting && c < |s.conns| && s.conns[c].open
  }

  function DoAccept(s: System, c: nat): System {
    if s.srv.active && !s.crashed && c < |s.conns| && !s.conns[c].accepted then
      s.(srv := Accept(s.srv, c),
         conns := s.conns[c := s.conns[c].(accepted := true, start := |s.log|)])
    else s
  }

  function DoRead(s: System, c: nat, now: int, failing: set<nat>): System
    requires ListedExist(s)
  {
    if CanRead(s, c) && s.conns[c].taken < |s.conns[c].inbox| then
      var request := s.conns[c].inbox[s.conns[c].taken];
      var reply := Reply(s.srv.names, request, now);
      var (conns, crashed) := Broadcast(s.conns, s.srv.list, reply, failing);
      s.(srv := s.srv.(names := NamesAfter(s.srv.names, request)),
         conns := conns[c := conns[c].(taken := conns[c].taken + 1)],
         crashed := crashed,
         log := s.log + [reply], asker := s.asker + [c],
         faulty := s.faulty || failing * s.srv.waiting != {})
    else s
  }

  function DoReadEnd(s: System, c: nat): System {
    if CanRead(s, c) then
      s.(srv := Remove(s.srv, c), conns := s.conns[c := s.conns[c].(open := false)])
    else s
  }

  function DoReadError(s: System, c: nat): System {
    if CanRead(s, c) then s.(conns := s.conns[c := s.conns[c].(open := false)], faulty := true)
    else s
  }

  function DoStdin(s: System, line: string): System {
    if s.srv.active && !s.crashed && line == "exit" then s.(srv := ExitLoop(s.srv, 0).(active := false))
    else s
  }

  // ----- the clients' steps

  /** Everything the server wrote on the client's connection. */
  function ReceivedBy(s: System, c: Client): seq<Instance> {
    if c.conn.Some? && c.conn.value < |s.conns| then s.conns[c.conn.value].sent else []
  }

  function DoClient(s: System, k: nat, a: Action): System {
    if k >= |s.clients| then s else
    var c := s.clients[k];
    if a.OpenSocket? then
      if c.reader.Connecting? && !c.stopped then
        s.(clients := s.clients[k := ReaderConnects(c, |s.conns|)],
           conns := s.conns + [Conn(false, true, [], 0, [], 0)])
      else s
    else if a.RunSendTask? && !c.stopped && SendReady(c) && c.conn.Some? && c.conn.value < |s.conns| then
      var d := c.conn.value;
      s.(clients := s.clients[k := SendDone(c)],
         conns := s.conns[d := s.conns[d].(inbox := s.conns[d].inbox + [c.pending[0]])])
    else s.(clients := s.clients[k := Act(c, a, ReceivedBy(s, c))])
  }

  /** A connection that no client's code made. */
  function DoDial(s: System): System {
    s.(conns := s.conns + [Conn(false, true, [], 0, [], 0)])
  }

  /** The connection with one request more, ahead of those that are unread. */
  function Ahead(conn: Conn, request: Instance): Conn {
    var n := if conn.taken <= |conn.inbox| then conn.taken else |conn.inbox|;
    conn.(inbox := conn.inbox[..n] + [request] + conn.inbox[n..])
  }

  /** A request that no client's code produced; of what is unread on a connection it is the next to be read. */
  function DoOutsider(s: System, c: nat, request: Instance): System {
    if c < |s.conns| then
      s.(conns := s.conns[c := Ahead(s.conns[c], request)], rogue := true)
    else s.(conns := s.conns + [Conn(false, true, [request], 0, [], 0)], rogue := true)
  }

  function Apply(s: System, step: Step): System
    requires ListedExist(s)
  {
    match step
    case AcceptSocket(c) => DoAccept(s, c)
    case ReadRequest(c, now, failing) => DoRead(s, c, now, failing)
    case ReadEnd(c) => DoReadEnd(s, c)
    case ReadError(c) => DoReadError(s, c)
    case Stdin(line) => DoStdin(s, line)
    case OfClient(k, action) => DoClient(s, k, action)
    case Dial => DoDial(s)
    case Outsider(c, request) => DoOutsider(s, c, request)
  }

  function Start(clients: nat): System {
    System(ServerState([], {}, [], true), false, [], seq(clients, _ => FRESH), [], [], false, false)
  }
}
