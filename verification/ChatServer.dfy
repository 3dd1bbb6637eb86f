/**
  The server object: one handler per kind of event. Each handler is proved to do to its sockets, its two
  registries and its name list what the step of the same name does in the protocol.
 */
module ChatServer {
  import opened Wrappers
  import opened Timestamp
  import opened Messages
  import opened Visitors
  import opened Networking
  import opened ServerCore
  import opened Protocol
  import opened ProtocolChannels
  import opened ProtocolInvariants
  import opened ProtocolLaws
  import opened ProtocolReplies
  import opened ClientMessages

  /**
    What a visit of a tree leads to: the reply to broadcast and the names afterwards, or nothing when an
    exception leaves the visitor. The bad-object reply is here because the code has it.
   */
  function Served(fp: Fp, names: seq<string>, json: Tree, now: int): Option<(Instance, seq<string>)> {
    match RequestOutcome(fp, json)
    case LoginVisited(m) => Some((Reply(names, m, now), NamesAfter(names, m)))
    case MessageVisited(m) => Some((Reply(names, m, now), names))
    case NoType =>
      Some((ErrorResponse(now, SERVER_SENDER, UNKNOWN_SENDER, MALFORMED_REQUEST_NO_TYPE, BAD_TAG_TEXT), names))
    case BadObject =>
      Some((ErrorResponse(now, SERVER_SENDER, UNKNOWN_SENDER, MALFORMED_REQUEST_BAD_OBJECT_DEF, BAD_OBJECT_TEXT), names))
    case Propagated => None
  }

  const MALFORMED_REQUEST_BAD_OBJECT_DEF := 203
  const BAD_OBJECT_TEXT := "Object was incorrectly defined"

  /** Through the codec and the visitor, a request is answered as the protocol says. */
  lemma ServedAsReplied(fp: Fp, tol: real, names: seq<string>, request: Instance, now: int)
    requires Sound(fp, tol) && Printable(fp, request)
    ensures Served(fp, names, JsonOf(fp, request), now)
            == Some((Reply(names, request, now), NamesAfter(names, request)))
  {
    RequestsDispatch(fp, tol, request);
    hide RequestOutcome, JsonOf, Sound, Printable;
  }

  /** So is a request as the client writes it. */
  lemma ClientRequestServed(fp: Fp, tol: real, names: seq<string>, request: Instance, ms: nat, zone: int, now: int)
    requires Sound(fp, tol) && IsClientRequest(request, ms, zone)
    ensures Served(fp, names, ClientJson(request, ms, zone), now)
            == Some((Reply(names, request, now), NamesAfter(names, request)))
  {
    ServerSeesRequests(fp, tol, request, ms, zone);
    ClientRequestTime(request, ms, zone);
    hide RequestOutcome, ClientJson, IsClientRequest, Sound;
  }

  /** A request that is answered as this tree is; a tree of no known type is answered like a response. */
  ghost function RequestOf(fp: Fp, json: Tree): Instance {
    match RequestOutcome(fp, json)
    case LoginVisited(m) => m
    case MessageVisited(m) => m
    case _ => ErrorResponse(0, [], [], 0, [])
  }

  lemma RequestOfServed(fp: Fp, names: seq<string>, json: Tree, now: int)
    requires Served(fp, names, json, now).Some?
    ensures var request := RequestOf(fp, json);
            Served(fp, names, json, now).value == (Reply(names, request, now), NamesAfter(names, request))
  {
    VisitedTypes(fp, json);
    OutcomeByShape(fp, json);
    hide RequestOutcome;
  }

  lemma VisitedTypes(fp: Fp, json: Tree)
    ensures var o := RequestOutcome(fp, json);
            && (o.LoginVisited? ==> o.m.LoginRequest?) && (o.MessageVisited? ==> o.m.MessageRequest?)
  {
    hide TimePointOf, Find;
  }

  /** Connection numbers of the accepted sockets; each socket has the open flag and the output of its connection. */
  ghost predicate Depicts(at: map<nat, Socket>, conns: seq<Conn>)
    reads at.Values
  {
    && (forall c, d :: c in at && d in at && at[c] == at[d] ==> c == d)
    && (forall c :: c in at ==>
          c < |conns| && conns[c].accepted && conns[c].open == at[c].open && conns[c].sent == at[c].sent)
  }

  /** The sockets of a list of connection numbers. */
  ghost predicate Names(at: map<nat, Socket>, list: seq<nat>, sockets: seq<Socket>) {
    && |sockets| == |list|
    && forall i :: 0 <= i < |list| ==> list[i] in at && sockets[i] == at[list[i]]
  }

  ghost function Numbers(at: map<nat, Socket>, sockets: set<Socket>): set<nat> {
    set c | c in at && at[c] in sockets
  }

  /** Removing by number and removing by reference come to the same. */
  lemma {:induction false} WithoutNamed(at: map<nat, Socket>, list: seq<nat>, sockets: seq<Socket>, c: nat)
    requires forall c, d :: c in at && d in at && at[c] == at[d] ==> c == d
    requires c in at && Names(at, list, sockets)
    ensures Names(at, Without(list, c), Without(sockets, at[c]))
  {
    if list != [] {
      WithoutNamed(at, list[1..], sockets[1..], c);
    }
  }

  lemma BroadcastStep(conns: seq<Conn>, list: seq<nat>, i: nat, reply: Instance, failing: set<nat>)
    requires i <= |list| && forall k :: 0 <= k < |list| ==> list[k] < |conns|
    ensures i == |list| ==> Broadcast(conns, list[i..], reply, failing) == (conns, false)
    ensures i < |list| ==>
              Broadcast(conns, list[i..], reply, failing)
              == if !conns[list[i]].open then (conns, true)
                 else Broadcast(conns[list[i] := Protocol.Written(conns[list[i]], reply, list[i] !in failing)],
                                list[i + 1..], reply, failing)
    ensures Broadcast(conns, list, reply, failing) == Broadcast(conns, list[0..], reply, failing)
  {
    assert list[0..] == list;
    if i < |list| {
      assert list[i..][1..] == list[i + 1..];
    }
  }

  class Server {
    const fp: Fp
    /** The printer's error. */
    ghost const tol: real
    const waiter: FlexWaiter
    const visitor: RequestVisitor
    var socketList: seq<Socket>
    var clientNames: seq<string>
    var inActivity: bool

    constructor (fp: Fp, master: int, ghost tol: real)
      requires master >= 0
      ensures socketList == [] && clientNames == [] && inActivity && waiter.sockets == {} && waiter.killEventFd == -1
      ensures Shows(map[], Protocol.Start(0)) && fresh(waiter) && fresh(visitor) && visitor.propMap == HANDLERS
      ensures this.fp == fp && this.tol == tol && waiter.master == Some(master)
    {
      this.fp := fp;
      this.tol := tol;
      waiter := new FlexWaiter(Some(master));
      visitor := new RequestVisitor();
      socketList := [];
      clientNames := [];
      inActivity := true;
    }

    /** The object and its sockets are those of the protocol's state, under the given numbering. */
    ghost predicate Shows(at: map<nat, Socket>, s: System)
      reads this, waiter, at.Values
    {
      && Depicts(at, s.conns)
      && Names(at, s.srv.list, socketList)
      && s.srv.waiting <= at.Keys && waiter.sockets == (set c | c in s.srv.waiting :: at[c])
      && clientNames == s.srv.names && inActivity == s.srv.active
    }

    /** The object's own registries, names and activity. */
    ghost function Held(): ServerState<Socket>
      reads this, waiter
    {
      ServerState(socketList, waiter.sockets, clientNames, inActivity)
    }

    /** In every state the protocol can reach, list and waiter hold the same sockets, each once. */
    lemma RegistriesInSync(at: map<nat, Socket>, clients: nat, steps: seq<Step>)
      requires Shows(at, Run(clients, steps))
      ensures InSync(Held())
    {
      RegistriesAgree(clients, steps);
      ShownInSync(at, Run(clients, steps));
    }

    lemma ShownInSync(at: map<nat, Socket>, s: System)
      requires Shows(at, s) && InSync(s.srv)
      ensures InSync(Held())
    {
      forall x | x in waiter.sockets ensures x in socketList {
        var c :| c in s.srv.waiting && at[c] == x;
        var i :| 0 <= i < |s.srv.list| && s.srv.list[i] == c;
        assert socketList[i] == x;
      }
      forall i | 0 <= i < |socketList| ensures socketList[i] in waiter.sockets {
        assert s.srv.list[i] in s.srv.waiting;
      }
      assert waiter.sockets == set x | x in socketList;
    }

    /**
      What the object has written: in a run without foreign requests, each message on a socket stands at a
      place `n` of the log behind a login of its originator.
     */
    lemma WrittenFollowsLogins(at: map<nat, Socket>, clients: nat, steps: seq<Step>, c: nat, i: nat) returns (n: nat)
      requires Shows(at, Run(clients, steps)) && forall k :: 0 <= k < |steps| ==> !steps[k].Outsider?
      requires c in at && i < |at[c].sent| && at[c].sent[i].MessageResponse?
      ensures n < |Run(clients, steps).log| && Run(clients, steps).log[n] == at[c].sent[i]
      ensures LoginIn(Run(clients, steps).log[..n], at[c].sent[i].originator)
    {
      Numbered(at, Run(clients, steps), c);
      hide Run, Inv, Shows, LoginIn;
      n := SentFollowsLogins(clients, steps, c, i);
    }

    method AddSocketConnection(newSock: Socket, ghost at: map<nat, Socket>, ghost s: System, ghost c: nat)
      requires Shows(at, s) && c < |s.conns| && c !in at && newSock !in at.Values
      requires s.conns[c].accepted && newSock.open == s.conns[c].open && newSock.sent == s.conns[c].sent
      modifies this`socketList, waiter`sockets
      ensures socketList == old(socketList) + [newSock] && waiter.sockets == old(waiter.sockets) + {newSock}
      ensures Shows(at[c := newSock], s.(srv := Accept(s.srv, c)))
    {
      socketList := socketList + [newSock];
      waiter.AddSocket(newSock);
      ghost var at' := at[c := newSock];
      assert forall d :: d in at ==> at'[d] == at[d];
      assert forall d :: d in s.srv.waiting ==> at'[d] == at[d];
    }

    method RemoveSocketConnection(oldSock: Socket, ghost at: map<nat, Socket>, ghost s: System, ghost c: nat)
      requires Shows(at, s) && c in at && at[c] == oldSock
      modifies this`socketList, waiter`sockets
      ensures socketList == Without(old(socketList), oldSock) && waiter.sockets == old(waiter.sockets) - {oldSock}
      ensures Shows(at, s.(srv := Remove(s.srv, c)))
    {
      WithoutNamed(at, s.srv.list, socketList, c);
      socketList := Without(socketList, oldSock);
      waiter.RemoveSocket(oldSock);
    }

    /** The names are searched in order; a new one goes to the end. */
    method VisitLogin(m: Instance, now: int) returns (reply: Instance)
      requires m.LoginRequest?
      modifies this`clientNames
      ensures reply == Reply(old(clientNames), m, now)
      ensures clientNames == NamesAfter(old(clientNames), m)
      ensures reply.time == now && reply.from == SERVER_SENDER
      ensures m.from !in old(clientNames) ==> IsLogin(reply, m.from) && clientNames == old(clientNames) + [m.from]
      ensures m.from in old(clientNames) ==>
                && reply.ErrorResponse? && reply.originator == SERVER_SENDER && reply.code == USER_NAME_IN_USE
                && reply.text == IN_USE_TEXT && clientNames == old(clientNames)
    {
      var i := 0;
      while i < |clientNames|
        invariant i <= |clientNames| && m.from !in clientNames[..i]
      {
        if clientNames[i] == m.from {
          return ErrorResponse(now, SERVER_SENDER, SERVER_SENDER, USER_NAME_IN_USE, IN_USE_TEXT);
        }
        i := i + 1;
      }
      assert clientNames[..i] == clientNames;
      clientNames := clientNames + [m.from];
      return LoginResponse(now, SERVER_SENDER, m.from);
    }

    method VisitMessage(m: Instance, now: int) returns (reply: Instance)
      requires m.MessageRequest?
      ensures reply == Reply(clientNames, m, now) == MessageResponse(now, SERVER_SENDER, m.from, m.content)
    {
      return MessageResponse(now, SERVER_SENDER, m.from, m.content);
    }

    /** One write of the loop in `onSocket`, to the socket of connection `d`. */
    method WriteTo(i: nat, reply: Instance, failing: set<Socket>, ghost at: map<nat, Socket>, ghost s: System)
      returns (threw: bool, ghost conns: seq<Conn>)
      requires i < |socketList| && Shows(at, s)
      modifies socketList[i]
      ensures var d := s.srv.list[i];
              && threw == !s.conns[d].open
              && conns == if threw then s.conns
                          else s.conns[d := Protocol.Written(s.conns[d], reply, d !in Numbers(at, failing))]
      ensures Shows(at, s.(conns := conns))
    {
      ghost var d := s.srv.list[i];
      var r := socketList[i].Write(reply, socketList[i] !in failing);
      threw := r.WriteThrew?;
      conns := if threw then s.conns
               else s.conns[d := Protocol.Written(s.conns[d], reply, d !in Numbers(at, failing))];
    }

    /** The loop of `onSocket`: every listed socket is written to, until one throws. */
    method WriteToAll(reply: Instance, failing: set<Socket>, ghost at: map<nat, Socket>, ghost s: System)
      returns (threw: bool)
      requires Shows(at, s) && ListedExist(s)
      modifies socketList
      ensures var (conns, crashed) := Broadcast(s.conns, s.srv.list, reply, Numbers(at, failing));
              Shows(at, s.(conns := conns)) && threw == crashed
    {
      hide Broadcast, Depicts, Protocol.Written, Numbers;
      ghost var conns := s.conns;
      BroadcastStep(conns, s.srv.list, 0, reply, Numbers(at, failing));
      var i := 0;
      while i < |socketList|
        invariant i <= |socketList| && |conns| == |s.conns|
        invariant Shows(at, s.(conns := conns))
        invariant Broadcast(conns, s.srv.list[i..], reply, Numbers(at, failing))
                  == Broadcast(s.conns, s.srv.list, reply, Numbers(at, failing))
        modifies socketList
      {
        BroadcastStep(conns, s.srv.list, i, reply, Numbers(at, failing));
        threw, conns := WriteTo(i, reply, failing, at, s.(conns := conns));
        if threw {
          return;
        }
        i := i + 1;
      }
      BroadcastStep(conns, s.srv.list, i, reply, Numbers(at, failing));
      return false;
    }

    /** A new connection; a failing `accept` throws. */
    method OnSocketServer(accepted: Option<Socket>, ghost at: map<nat, Socket>, ghost s: System, ghost c: nat)
      returns (threw: bool)
      requires Shows(at, s) && s.srv.active && !s.crashed
      requires accepted.Some? ==>
                 && c < |s.conns| && !s.conns[c].accepted && accepted.value !in at.Values
                 && accepted.value.open == s.conns[c].open && accepted.value.sent == s.conns[c].sent
      modifies this`socketList, waiter`sockets
      ensures threw == accepted.None?
      ensures Shows(if threw then at else at[c := accepted.value], if threw then s else DoAccept(s, c))
      ensures socketList == old(socketList) + (if threw then [] else [accepted.value])
      ensures waiter.sockets == old(waiter.sockets) + (if threw then {} else {accepted.value})
    {
      if accepted.None? {
        return true;
      }
      ghost var conn := s.conns[c].(accepted := true, start := |s.log|);
      AddSocketConnection(accepted.value, at, s.(conns := s.conns[c := conn]), c);
      return false;
    }

    /**
      A readable socket. What was read is visited and the reply written to all; at the end of the stream
      the socket goes from both registries; after an error it stays in both, closed.
     */
    method OnSocket(child: Socket, incoming: Recv, now: int, failing: set<Socket>,
                    ghost at: map<nat, Socket>, ghost s: System, ghost c: nat)
      returns (threw: bool)
      requires Shows(at, s) && ListedExist(s) && visitor.propMap == HANDLERS
      requires s.srv.active && !s.crashed && c in s.srv.waiting && at[c] == child
      modifies this`socketList, this`clientNames, waiter`sockets, child`open, socketList
      ensures !old(child.open) || incoming.RecvError? ==> !threw && Shows(at, DoReadError(s, c))
      ensures old(child.open) && incoming.EndOfStream? ==> !threw && Shows(at, DoReadEnd(s, c))
      ensures old(child.open) && incoming.Data? ==>
                var served := if incoming.json.None? then None else Served(fp, s.srv.names, incoming.json.value, now);
                if served.None? then threw && Shows(at, s)
                else
                  var (reply, names) := served.value;
                  var (conns, crashed) := Broadcast(s.conns, s.srv.list, reply, Numbers(at, failing));
                  threw == crashed && Shows(at, s.(srv := s.srv.(names := names), conns := conns))
    {
      hide Broadcast, RequestOutcome, Reply, NamesAfter, InSync, ExitLoop;
      var r := child.Read(incoming);
      if r.Data? {
        if r.json.None? {
          return true;
        }
        VisitedTypes(fp, r.json.value);
        var o := visitor.Visit(fp, r.json.value);
        var reply: Instance;
        match o {
          case LoginVisited(m) => reply := VisitLogin(m, now);
          case MessageVisited(m) => reply := VisitMessage(m, now);
          case NoType =>
            reply := ErrorResponse(now, SERVER_SENDER, UNKNOWN_SENDER, MALFORMED_REQUEST_NO_TYPE, BAD_TAG_TEXT);
          case BadObject =>
            reply := ErrorResponse(now, SERVER_SENDER, UNKNOWN_SENDER, MALFORMED_REQUEST_BAD_OBJECT_DEF, BAD_OBJECT_TEXT);
          case Propagated => return true;
        }
        ghost var s' := s.(srv := s.srv.(names := clientNames));
        threw := WriteToAll(reply, failing, at, s');
      } else if r.EndOfStream? {
        ghost var s' := s.(conns := s.conns[c := s.conns[c].(open := false)]);
        RemoveSocketConnection(child, at, s', c);
        return false;
      } else {
        return false;
      }
    }

    /** The index goes up while the element at the index is erased. */
    method OnStdin(line: string, ghost at: map<nat, Socket>, ghost s: System)
      requires Shows(at, s) && s.srv.active && !s.crashed
      modifies this`socketList, this`inActivity, waiter`sockets
      ensures Shows(at, DoStdin(s, line))
      ensures line == "exit" && old(InSync(Held())) ==>
                && socketList == OddPositions(old(socketList))
                && waiter.sockets == (set x | x in socketList) && !inActivity
      ensures line != "exit" ==> Held() == old(Held())
    {
      hide ExitLoop, InSync, NoDuplicates, Without, OddPositions, Depicts;
      if line == "exit" {
        ghost var st := s.srv;
        ghost var held := Held();
        var i := 0;
        while i < |socketList|
          invariant Shows(at, s.(srv := st)) && ExitLoop(st, i) == ExitLoop(s.srv, 0)
          invariant ExitLoop(Held(), i) == ExitLoop(held, 0)
          decreases |socketList|
        {
          ghost var c := st.list[i];
          ExitPass(st, i);
          ExitPass(Held(), i);
          RemoveSocketConnection(socketList[i], at, s.(srv := st), c);
          st := Remove(st, c);
          i := i + 1;
        }
        ExitPass(st, i);
        ExitPass(Held(), i);
        if InSync(held) {
          ExitKeepsOddPositions(held);
        }
        inActivity := false;
      }
    }

    /** The requests read so far, and which connection they came on, do not show. */
    lemma ReadShown(at: map<nat, Socket>, s: System, c: nat, now: int, failing: set<nat>)
      requires ListedExist(s) && CanRead(s, c) && s.conns[c].taken < |s.conns[c].inbox|
      requires var request := s.conns[c].inbox[s.conns[c].taken];
               var (conns, _) := Broadcast(s.conns, s.srv.list, Reply(s.srv.names, request, now), failing);
               Shows(at, s.(srv := s.srv.(names := NamesAfter(s.srv.names, request)), conns := conns))
      ensures Shows(at, DoRead(s, c, now, failing))
    {
      hide Broadcast, Reply, NamesAfter;
    }

    /**
      What `OnSocket` does with the client's own text for the next request on the connection, written in any
      zone, is the protocol's read step.
     */
    lemma RequestTextIsRead(at: map<nat, Socket>, s: System, c: nat, ms: nat, zone: int, now: int,
                            failing: set<nat>)
      requires ListedExist(s) && CanRead(s, c) && s.conns[c].taken < |s.conns[c].inbox|
      requires Sound(fp, tol) && IsClientRequest(s.conns[c].inbox[s.conns[c].taken], ms, zone)
      ensures var served := Served(fp, s.srv.names, ClientJson(s.conns[c].inbox[s.conns[c].taken], ms, zone), now);
              && served.Some?
              && var (reply, names) := served.value;
              var (conns, crashed) := Broadcast(s.conns, s.srv.list, reply, failing);
              && crashed == DoRead(s, c, now, failing).crashed
              && (Shows(at, s.(srv := s.srv.(names := names), conns := conns)) ==> Shows(at, DoRead(s, c, now, failing)))
    {
      hide Broadcast, Reply, NamesAfter, Served, Sound, ClientJson, IsClientRequest, Shows;
      var request := s.conns[c].inbox[s.conns[c].taken];
      ClientRequestServed(fp, tol, s.srv.names, request, ms, zone, now);
      var (conns, _) := Broadcast(s.conns, s.srv.list, Reply(s.srv.names, request, now), failing);
      if Shows(at, s.(srv := s.srv.(names := NamesAfter(s.srv.names, request)), conns := conns)) {
        ReadShown(at, s, c, now, failing);
      }
    }

    /** Between its handlers the server is active and has not thrown. */
    ghost predicate Idle(s: System) {
      ServerOk(s) && s.srv.active && !s.crashed
    }

    /**
      One turn of the loop after its wait: from an idle state of a run to the state after the steps that the
      call stands for.
     */
    method Turn(call: Call, w: Wakeup, ghost at: map<nat, Socket>, ghost clients: nat, ghost done: seq<Step>)
      returns (threw: bool, ghost at': map<nat, Socket>, ghost done': seq<Step>)
      requires Shows(at, Run(clients, done)) && Idle(Run(clients, done)) && visitor.propMap == HANDLERS
      requires Sound(fp, tol) && (call.OnSocket? ==> call.child in waiter.sockets)
      modifies this, waiter`sockets, at.Values
      ensures done' == done + TurnSteps(fp, w, call, at, Run(clients, done)) && Shows(at', Run(clients, done'))
      ensures Renumbered(w, call, at, Run(clients, done), at') && fresh(at'.Values - at.Values)
      ensures threw == TurnThrows(fp, w, call, at, Run(clients, done), Run(clients, done'))
      ensures !threw && Run(clients, done').srv.active ==> Idle(Run(clients, done'))
      ensures Faultless(fp, w) && !Run(clients, done).faulty ==>
                !Run(clients, done').faulty && (threw <==> call.WaitThrew?)
      ensures call == Call.OnStdin("exit") ==> !inActivity && socketList == OddPositions(old(socketList))
      ensures call.OnStdin? && call.line != "exit" ==> Held() == old(Held())
      ensures call.OnSocketServer? && w.acceptedFd.Some? ==>
                |socketList| == |old(socketList)| + 1 && old(socketList) <= socketList
                && socketList[|old(socketList)|].fd == w.acceptedFd.value
    {
      hide OddPositions, DoStdin, DoClient, InSync, RequestOutcome, Run, Served;
      ghost var s := Run(clients, done);
      match call
      case NoCall =>
        assert done + [] == done;
        threw, at', done' := false, at, done;
      case WaitThrew =>
        assert done + [] == done;
        threw, at', done' := true, at, done;
      case OnStdin(line) =>
        done' := TurnOnStdin(line, at, clients, done);
        threw, at' := false, at;
      case OnSocketServer =>
        threw, at', done' := TurnOnSocketServer(w, at, clients, done);
      case OnSocket(child) =>
        threw, done' := TurnOnSocket(child, w, at, clients, done);
        at' := at;
    }

    lemma StdinStaysIdle(s: System, line: string)
      requires Idle(s)
      ensures var s' := DoStdin(s, line);
              ServerOk(s') && (s'.srv.active ==> Idle(s')) && s'.faulty == s.faulty
    {
      StdinKeepsServer(s, line);
      hide ServerOk, ExitLoop;
    }

    /** A line on standard input; "exit" leaves the sockets at odd positions. */
    method TurnOnStdin(line: string, ghost at: map<nat, Socket>, ghost clients: nat, ghost done: seq<Step>)
      returns (ghost done': seq<Step>)
      requires Shows(at, Run(clients, done)) && Idle(Run(clients, done))
      modifies this`socketList, this`inActivity, waiter`sockets
      ensures done' == done + [Stdin(line)] && Shows(at, Run(clients, done'))
      ensures Run(clients, done').srv.active ==> Idle(Run(clients, done'))
      ensures Run(clients, done').faulty == Run(clients, done).faulty
      ensures line == "exit" ==> !inActivity && socketList == OddPositions(old(socketList))
      ensures line != "exit" ==> Held() == old(Held())
    {
      hide ServerOk, DoStdin, DoClient, InSync, Run, OddPositions;
      ghost var s := Run(clients, done);
      RegistriesInSync(at, clients, done);
      StdinStaysIdle(s, line);
      OneStep(clients, done, Stdin(line));
      OnStdin(line, at, s);
      done' := done + [Stdin(line)];
    }

    /** An accept on an idle server. */
    lemma AcceptStaysIdle(at: map<nat, Socket>, s: System, c: nat)
      requires Shows(at, s) && Idle(s) && CanAccept(s, c)
      ensures c !in at && s.conns[c].open && s.conns[c].sent == []
      ensures Idle(DoAccept(s, c)) && DoAccept(s, c).faulty == s.faulty
    {
      AcceptKeepsServer(s, c);
      assert Segment(s.conns[c], s.log);
      hide ServerOk;
    }

    /** A connection made while the server is idle. */
    lemma DialStaysIdle(at: map<nat, Socket>, s: System)
      requires Shows(at, s) && Idle(s)
      ensures Shows(at, DoDial(s)) && Idle(DoDial(s)) && CanAccept(DoDial(s), |s.conns|) && DoDial(s).faulty == s.faulty
    {
      DialAddsConnection(s);
      InboxesKeepServer(s, DoDial(s));
      hide ServerOk;
    }

    /** The protocol's side of an accept. */
    lemma AcceptStepsLead(w: Wakeup, at: map<nat, Socket>, clients: nat, done: seq<Step>)
      requires Shows(at, Run(clients, done)) && Idle(Run(clients, done))
      ensures var s := Run(clients, done);
              var (s1, c) := (Reached(w, s), AcceptNumber(w, s));
              && Shows(at, s1) && s1.srv.active && !s1.crashed && CanAccept(s1, c)
              && c !in at && s1.conns[c].open && s1.conns[c].sent == []
              && Run(clients, done + AcceptSteps(w, s)) == DoAccept(s1, c)
              && Idle(DoAccept(s1, c)) && DoAccept(s1, c).faulty == s.faulty
    {
      hide ServerOk, DoAccept, DoClient, InSync, Run, Shows;
      var s := Run(clients, done);
      var c := AcceptNumber(w, s);
      if CanAccept(s, c) {
        OneStep(clients, done, AcceptSocket(c));
      } else {
        DialStaysIdle(at, s);
        TwoSteps(clients, done, Dial, AcceptSocket(c));
      }
      AcceptStaysIdle(at, Reached(w, s), c);
    }

    method TurnOnSocketServer(w: Wakeup, ghost at: map<nat, Socket>, ghost clients: nat, ghost done: seq<Step>)
      returns (threw: bool, ghost at': map<nat, Socket>, ghost done': seq<Step>)
      requires Shows(at, Run(clients, done)) && Idle(Run(clients, done))
      modifies this`socketList, waiter`sockets
      ensures done' == done + TurnSteps(fp, w, Call.OnSocketServer, at, Run(clients, done))
      ensures Shows(at', Run(clients, done'))
      ensures Renumbered(w, Call.OnSocketServer, at, Run(clients, done), at') && fresh(at'.Values - at.Values)
      ensures Idle(Run(clients, done')) && Run(clients, done').faulty == Run(clients, done).faulty
      ensures threw == w.acceptedFd.None?
      ensures !threw ==>
                |socketList| == |old(socketList)| + 1 && old(socketList) <= socketList
                && socketList[|old(socketList)|].fd == w.acceptedFd.value
    {
      hide ServerOk, DoAccept, InSync, Run, CanAccept, Idle;
      ghost var s := Run(clients, done);
      ghost var c := AcceptNumber(w, s);
      AcceptStepsLead(w, at, clients, done);
      AcceptIsPossible(Reached(w, s), c);
      IdleMeans(s);
      var accepted := None;
      if w.acceptedFd.Some? {
        var sock := new Socket(w.acceptedFd.value);
        accepted := Some(sock);
      }
      threw := OnSocketServer(accepted, at, if accepted.Some? then Reached(w, s) else s, c);
      at' := if threw then at else at[c := accepted.value];
      done' := if threw then done else done + AcceptSteps(w, s);
      assert done + [] == done;
    }

    lemma AcceptIsPossible(s: System, c: nat)
      requires CanAccept(s, c)
      ensures c < |s.conns| && !s.conns[c].accepted
    {
    }

    lemma IdleMeans(s: System)
      requires Idle(s)
      ensures s.srv.active && !s.crashed
    {
    }

    /** A foreign request arriving on an idle server. */
    lemma ArrivalStaysIdle(at: map<nat, Socket>, s: System, c: nat, request: Instance)
      requires Shows(at, s) && Idle(s) && c in s.srv.waiting && c < |s.conns| && s.conns[c].taken <= |s.conns[c].inbox|
      ensures var s1 := DoOutsider(s, c, request);
              && Shows(at, s1) && Idle(s1) && s1.srv == s.srv && s1.faulty == s.faulty && c < |s1.conns|
              && s1.conns[c].open == s.conns[c].open && s1.conns[c].taken < |s1.conns[c].inbox|
              && s1.conns[c].inbox[s1.conns[c].taken] == request
    {
      OutsidersOnlyAddRequests(s, c, request);
      InboxesKeepServer(s, DoOutsider(s, c, request));
      hide ServerOk, InSync, NoDuplicates;
    }

    lemma ReadStaysIdle(s: System, c: nat, now: int, failing: set<nat>)
      requires Idle(s) && CanRead(s, c) && s.conns[c].taken < |s.conns[c].inbox|
      ensures var s' := DoRead(s, c, now, failing);
              && s'.srv.active && (!s'.crashed ==> Idle(s'))
              && (!s.faulty && failing == {} ==> !s'.faulty && !s'.crashed)
    {
      ReadKeepsServer(s, c, now, failing);
      var s' := DoRead(s, c, now, failing);
      hide ServerOk, Broadcast, Reply, InSync, NoDuplicates;
      if !s'.faulty {
        NoFaultNoCrash(s');
      }
    }

    lemma NoFaultNoCrash(s: System)
      requires ServerOk(s) && !s.faulty
      ensures !s.crashed
    {
    }

    lemma NoFaultOpen(s: System, c: nat)
      requires ServerOk(s) && c in s.srv.waiting
      ensures c < |s.conns| && (!s.faulty ==> s.conns[c].open)
      ensures DoReadEnd(s, c).faulty == s.faulty
    {
    }

    lemma Numbered(at: map<nat, Socket>, s: System, c: nat)
      requires Shows(at, s) && c in at
      ensures c < |s.conns| && s.conns[c].sent == at[c].sent
    {
    }

    /**
      The protocol's side of one handling: a foreign request arrives if there is one, and then the call's own
      step is taken, if it comes to one.
     */
    lemma SocketStepsLead(w: Wakeup, at: map<nat, Socket>, clients: nat, done: seq<Step>, c: nat)
      requires Shows(at, Run(clients, done)) && Idle(Run(clients, done)) && c in Run(clients, done).srv.waiting && c in at
      ensures var s := Run(clients, done);
              var steps := SocketSteps(fp, w, at, s, c);
              var (s1, s') := (Asked(s, steps), Run(clients, done + steps));
              && Shows(at, s1) && ListedExist(s1) && s1.srv == s.srv && !s1.crashed && c < |s1.conns|
              && (|steps| != 2 ==> s1 == s)
              && (Reads(steps) ==>
                    && CanRead(s1, c) && s1.conns[c].taken < |s1.conns[c].inbox|
                    && s' == DoRead(s1, c, w.now, Numbers(at, w.failing))
                    && w.incoming.Data? && w.incoming.json == Some(TextOf(w))
                    && (IsNextText(s1, c, TextOf(w)) || (
                          && Served(fp, s.srv.names, TextOf(w), w.now).Some?
                          && s1.conns[c].inbox[s1.conns[c].taken] == RequestOf(fp, TextOf(w)))))
              && (steps != [] && !Reads(steps) ==>
                    !s'.crashed && s' == if steps[0].ReadEnd? then DoReadEnd(s, c) else DoReadError(s, c))
              && (steps == [] ==> s' == s)
              && (!s'.crashed ==> Idle(s'))
              && (Faultless(fp, w) && !s.faulty ==> !s'.faulty && !s'.crashed && steps != [])
    {
      hide Broadcast, Served, RequestOutcome, InSync, NoDuplicates, ServerOk, Run, DoOutsider, DoClient, DoRead,
           Shows, DoReadEnd, DoReadError, DoAccept, DoStdin, IsNextText;
      var s := Run(clients, done);
      var steps := SocketSteps(fp, w, at, s, c);
      RunIsOk(clients, done);
      Numbered(at, s, c);
      NoFaultOpen(s, c);
      if Faultless(fp, w) && w.incoming.Data? {
        FaultlessServed(fp, w, s.srv.names);
      }
      if Reads(steps) {
        if |steps| == 1 {
          NextExists(s, c, TextOf(w));
          OneStep(clients, done, steps[0]);
        } else {
          TakenInRun(clients, done, c);
          ArrivalStaysIdle(at, s, c, RequestOf(fp, TextOf(w)));
          TwoSteps(clients, done, steps[0], steps[1]);
        }
        ReadStaysIdle(Asked(s, steps), c, w.now, Numbers(at, w.failing));
        NumbersOfNone(at, w.failing);
      } else if steps != [] {
        CloseStaysIdle(s, c);
        OneStep(clients, done, steps[0]);
      } else {
        assert done + steps == done;
      }
    }

    lemma NumbersOfNone(at: map<nat, Socket>, failing: set<Socket>)
      ensures failing == {} ==> Numbers(at, failing) == {}
    {
    }

    /** One handling of a socket: a failed read, an end, a request being read, or an exception. */
    method TurnOnSocket(child: Socket, w: Wakeup, ghost at: map<nat, Socket>, ghost clients: nat, ghost done: seq<Step>)
      returns (threw: bool, ghost done': seq<Step>)
      requires Shows(at, Run(clients, done)) && Idle(Run(clients, done)) && visitor.propMap == HANDLERS
      requires Sound(fp, tol) && child in waiter.sockets
      modifies this, waiter`sockets, at.Values
      ensures done' == done + TurnSteps(fp, w, Call.OnSocket(child), at, Run(clients, done))
      ensures Shows(at, Run(clients, done'))
      ensures threw == TurnThrows(fp, w, Call.OnSocket(child), at, Run(clients, done), Run(clients, done'))
      ensures !threw && Run(clients, done').srv.active ==> Idle(Run(clients, done'))
      ensures Faultless(fp, w) && !Run(clients, done).faulty ==> !Run(clients, done').faulty && !threw
    {
      hide Broadcast, Served, RequestOutcome, InSync, ServerOk, Run, NumberOf, DoOutsider, DoClient, DoRead, Faultless,
           Sound, IsNextText, Idle, Shows, DoReadEnd, DoReadError, Asked, CanRead;
      ghost var s := Run(clients, done);
      ghost var c := NumberOf(at, s.srv.waiting, child);
      ChildIsShown(at, s, child);
      RunIsOk(clients, done);
      ghost var steps := SocketSteps(fp, w, at, s, c);
      ghost var s1 := Asked(s, steps);
      SocketStepsLead(w, at, clients, done, c);
      IdleMeans(s);
      threw := OnSocket(child, w.incoming, w.now, w.failing, at, s1, c);
      if Reads(steps) {
        ReadIsShown(w, at, s1, c);
      }
      done' := done + steps;
    }

    /** The handler's result is that of the read step, for the client's next text and for a foreign one. */
    lemma ReadIsShown(w: Wakeup, at: map<nat, Socket>, s: System, c: nat)
      requires Sound(fp, tol) && ListedExist(s) && CanRead(s, c) && s.conns[c].taken < |s.conns[c].inbox|
      requires IsNextText(s, c, TextOf(w)) || (
                 && Served(fp, s.srv.names, TextOf(w), w.now).Some?
                 && s.conns[c].inbox[s.conns[c].taken] == RequestOf(fp, TextOf(w)))
      ensures var served := Served(fp, s.srv.names, TextOf(w), w.now);
              && served.Some?
              && var (reply, names) := served.value;
              var (conns, crashed) := Broadcast(s.conns, s.srv.list, reply, Numbers(at, w.failing));
              && crashed == DoRead(s, c, w.now, Numbers(at, w.failing)).crashed
              && (Shows(at, s.(srv := s.srv.(names := names), conns := conns)) ==>
                    Shows(at, DoRead(s, c, w.now, Numbers(at, w.failing))))
    {
      hide Broadcast, Served, RequestOutcome, Reply, NamesAfter, Sound, Shows, IsNextText, RequestOf, TextOf, ClientJson,
           IsClientRequest;
      var failing := Numbers(at, w.failing);
      if IsNextText(s, c, TextOf(w)) {
        var ms, zone := NextText(s, c, TextOf(w));
        RequestTextIsRead(at, s, c, ms, zone, w.now, failing);
      } else {
        var request := s.conns[c].inbox[s.conns[c].taken];
        RequestOfServed(fp, s.srv.names, TextOf(w), w.now);
        var (conns, _) := Broadcast(s.conns, s.srv.list, Reply(s.srv.names, request, w.now), failing);
        CrashOfRead(s, c, w.now, failing);
        if Shows(at, s.(srv := s.srv.(names := NamesAfter(s.srv.names, request)), conns := conns)) {
          ReadShown(at, s, c, w.now, failing);
        }
      }
    }

    lemma ChildIsShown(at: map<nat, Socket>, s: System, child: Socket)
      requires Shows(at, s) && child in waiter.sockets
      ensures var c := NumberOf(at, s.srv.waiting, child);
              c in s.srv.waiting && c in at && at[c] == child && c < |s.conns| && s.conns[c].open == child.open
      ensures forall i :: 0 <= i < |socketList| ==> socketList[i] in at.Values
    {
      hide NumberOf;
      NumberIs(at, s.srv.waiting, child);
    }

    lemma CloseStaysIdle(s: System, c: nat)
      requires Idle(s)
      ensures Idle(DoReadEnd(s, c)) && DoReadEnd(s, c).faulty == s.faulty
      ensures Idle(DoReadError(s, c))
    {
      CloseKeepsServer(s, c);
      hide ServerOk, Remove;
    }

    lemma StartIsIdle(clients: nat)
      ensures Idle(Protocol.Start(clients))
    {
    }

    lemma AllOpen(at: map<nat, Socket>, s: System)
      requires Shows(at, s) && FaultFree(s) && ListedExist(s) && !s.faulty
      ensures forall i :: 0 <= i < |socketList| ==> socketList[i].open
    {
      forall i | 0 <= i < |socketList| ensures socketList[i].open {
        assert s.srv.list[i] in s.srv.list;
      }
    }

    /**
      The server's loop over any run of events, with any number of clients at the other end. Turn by turn it
      goes through the states of one run of the protocol: by what happens outside before the wait, and then
      by the steps that the wait's call stands for. It ends with an exception, with "exit", or with the
      events. If no system call failed, nothing threw and no listed socket is closed.
     */
    method Start(ghost clients: nat, wakeups: seq<Wakeup>)
      returns (threw: bool, used: nat, ghost calls: seq<Call>, ghost turns: seq<Snapshot>)
      requires Shows(map[], Protocol.Start(clients)) && visitor.propMap == HANDLERS && Sound(fp, tol)
      requires waiter.master.Some? && waiter.master.value >= 0
      modifies this, waiter
      ensures used <= |wakeups| && |calls| == used && |turns| == used + 1 && (threw ==> used > 0)
      ensures turns[0] == Snapshot(old(waiter.killEventFd), map[], [])
      ensures forall i :: 0 <= i < used ==>
                TurnTaken(fp, clients, waiter.master.value, wakeups[i], turns[i], calls[i], turns[i + 1],
                          threw && i == used - 1)
      ensures forall i :: 0 <= i < used ==> Run(clients, turns[i].done).srv.active
      ensures Shows(turns[used].at, Run(clients, turns[used].done)) && waiter.killEventFd == turns[used].kill
      ensures used < |wakeups| ==> threw || !inActivity
      ensures (forall i :: 0 <= i < |wakeups| ==> Faultless(fp, wakeups[i])) ==>
                !threw && forall i :: 0 <= i < |socketList| ==> socketList[i].open
    {
      hide ServerOk, Shows, RequestOutcome, InSync, Run, TurnTaken, Sound;
      RunUnfolds(clients, []);
      StartIsIdle(clients);
      threw, used, calls, turns := false, 0, [], [Snapshot(waiter.killEventFd, map[], [])];
      ghost var at, done := map[], [];
      ShownActivity(at, Run(clients, done));
      while inActivity && !threw && used < |wakeups|
        invariant used <= |wakeups| && |calls| == used && |turns| == used + 1 && (threw ==> used > 0)
        invariant turns[0] == Snapshot(old(waiter.killEventFd), map[], [])
        invariant turns[used] == Snapshot(waiter.killEventFd, at, done)
        invariant forall i :: 0 <= i < used ==>
                    TurnTaken(fp, clients, waiter.master.value, wakeups[i], turns[i], calls[i], turns[i + 1],
                              threw && i == used - 1)
        invariant forall i :: 0 <= i < used ==> Run(clients, turns[i].done).srv.active
        invariant Shows(at, Run(clients, done)) && Run(clients, done).srv.active == inActivity && fresh(at.Values)
        invariant !threw && inActivity ==> Idle(Run(clients, done))
        invariant (forall i :: 0 <= i < |wakeups| ==> Faultless(fp, wakeups[i])) ==>
                    !threw && !Run(clients, done).faulty
        decreases |wakeups| - used
      {
        ghost var call;
        threw, call, at, done := WaitAndTurn(wakeups[used], at, clients, done);
        ShownActivity(at, Run(clients, done));
        calls, turns := calls + [call], turns + [Snapshot(waiter.killEventFd, at, done)];
        used := used + 1;
      }
      NoFaultAllOpen(at, clients, done);
    }

    lemma ShownActivity(at: map<nat, Socket>, s: System)
      requires Shows(at, s)
      ensures s.srv.active == inActivity
    {
    }

    lemma NoFaultAllOpen(at: map<nat, Socket>, clients: nat, done: seq<Step>)
      requires Shows(at, Run(clients, done))
      ensures !Run(clients, done).faulty ==> forall i :: 0 <= i < |socketList| ==> socketList[i].open
    {
      var s := Run(clients, done);
      RunIsOk(clients, done);
      hide Run, InSync, Segments, UpToDate, NamesMatch;
      if !s.faulty {
        AllOpen(at, s);
      }
    }

    /** What happens outside the server does not show in it. */
    lemma ArrivalsShown(at: map<nat, Socket>, clients: nat, done: seq<Step>, arrivals: seq<OutsideStep>)
      requires Shows(at, Run(clients, done)) && Idle(Run(clients, done))
      ensures Shows(at, Run(clients, done + arrivals)) && Idle(Run(clients, done + arrivals))
      ensures Run(clients, done + arrivals).faulty == Run(clients, done).faulty
    {
      hide ServerOk, Run, Served, RequestOutcome, InSync;
      ArrivalsKeepServer(clients, done, arrivals);
      RunIsOk(clients, done + arrivals);
    }

    /** One pass through the loop of `start`. */
    method WaitAndTurn(w: Wakeup, ghost at: map<nat, Socket>, ghost clients: nat, ghost done: seq<Step>)
      returns (threw: bool, ghost call: Call, ghost at': map<nat, Socket>, ghost done': seq<Step>)
      requires Shows(at, Run(clients, done)) && Idle(Run(clients, done)) && visitor.propMap == HANDLERS
      requires Sound(fp, tol) && waiter.master.Some? && waiter.master.value >= 0
      modifies this, waiter, at.Values
      ensures TurnTaken(fp, clients, waiter.master.value, w, Snapshot(old(waiter.killEventFd), at, done), call,
                        Snapshot(waiter.killEventFd, at', done'), threw)
      ensures Shows(at', Run(clients, done')) && fresh(at'.Values - at.Values)
      ensures !threw && Run(clients, done').srv.active ==> Idle(Run(clients, done'))
      ensures Faultless(fp, w) && !Run(clients, done).faulty ==> !Run(clients, done').faulty && !threw
    {
      hide Idle, ServerOk, RequestOutcome, InSync, Run, TurnSteps, TurnThrows, Renumbered, Awaited, Shows, Faultless, Sound;
      ghost var now := done + w.arrivals;
      ArrivalsShown(at, clients, done, w.arrivals);
      RunIsOk(clients, now);
      var next := AwaitCall(w, at, Run(clients, now));
      call := next;
      threw, at', done' := Turn(next, w, at, clients, now);
    }

    /** The wait, as the protocol's state determines it; with no fault it does not throw. */
    method AwaitCall(w: Wakeup, ghost at: map<nat, Socket>, ghost s: System) returns (call: Call)
      requires Shows(at, s) && ListedExist(s)
      requires waiter.master.Some? && waiter.master.value >= 0
      modifies waiter`killEventFd, waiter`signals
      ensures Shows(at, s)
      ensures waiter.killEventFd == if old(waiter.killEventFd) == -1 then w.newEvent else old(waiter.killEventFd)
      ensures Awaited(w, waiter.master.value, waiter.killEventFd, at, s, call)
      ensures call.OnSocket? ==> call.child in waiter.sockets
      ensures Faultless(fp, w) ==> !call.WaitThrew?
      ensures call.OnStdin? ==>
                w.line == Some(call.line + "\n")
                || (w.line == Some(call.line) && (call.line == "" || call.line[|call.line| - 1] != '\n'))
    {
      hide RequestOutcome;
      call := waiter.Wait(w.newEvent, w.selected, w.killBytes, w.line);
      WaitShown(at, s, w.selected);
    }

    /** The waiter reports exactly the descriptors of the protocol's readable connections, and its own. */
    lemma WaitShown(at: map<nat, Socket>, s: System, selected: Selected)
      requires Shows(at, s) && ListedExist(s) && waiter.master.Some?
      ensures waiter.Reported(selected) == ReadyFds(selected, waiter.master.value, waiter.killEventFd, at, s)
    {
    }
  }

  // ----- what one turn is in the protocol

  lemma OneStep(clients: nat, done: seq<Step>, step: Step)
    ensures ListedExist(Run(clients, done)) && Run(clients, done + [step]) == Apply(Run(clients, done), step)
  {
    assert done + [] == done;
    RunAppend(clients, done, [], step);
    RunIsOk(clients, done);
    hide Run, Apply;
  }

  lemma TwoSteps(clients: nat, done: seq<Step>, step: Step, next: Step)
    ensures ListedExist(Run(clients, done)) && ListedExist(Apply(Run(clients, done), step))
    ensures Run(clients, done + [step, next]) == Apply(Apply(Run(clients, done), step), next)
  {
    hide *;
    OneStep(clients, done, step);
    OneStep(clients, done + [step], next);
    assert done + [step] + [next] == done + [step, next];
  }

  lemma RunIsOk(clients: nat, done: seq<Step>)
    ensures ServerOk(Run(clients, done)) && ListedExist(Run(clients, done))
  {
    InvParts(Run(clients, done));
    hide Run;
  }

  lemma TakenInRun(clients: nat, done: seq<Step>, c: nat)
    requires c < |Run(clients, done).conns|
    ensures Run(clients, done).conns[c].taken <= |Run(clients, done).conns[c].inbox|
  {
    TakenIsWritten(Run(clients, done), c);
  }

  /** The two states differ at most in the inboxes, in what clients and their queues hold, and in new connections. */
  predicate SameServer(s: System, s': System) {
    && s'.srv == s.srv && s'.crashed == s.crashed && s'.faulty == s.faulty && |s.conns| <= |s'.conns|
    && forall c :: 0 <= c < |s.conns| ==>
         && s'.conns[c].accepted == s.conns[c].accepted && s'.conns[c].open == s.conns[c].open
         && s'.conns[c].sent == s.conns[c].sent
  }

  lemma OutsideKeepsServer(s: System, step: OutsideStep)
    requires ListedExist(s)
    ensures SameServer(s, Apply(s, step))
  {
    match step
    case OfClient(k, a) => ClientsOnlyAddRequests(s, k, a);
    case Dial => DialAddsConnection(s);
    case Outsider(c, request) => OutsidersOnlyAddRequests(s, c, request);
    hide DoClient, DoOutsider;
  }

  lemma {:induction false} ArrivalsKeepServer(clients: nat, done: seq<Step>, arrivals: seq<OutsideStep>)
    ensures SameServer(Run(clients, done), Run(clients, done + arrivals))
    decreases |arrivals|
  {
    hide Run, Apply, ServerOk, Inv;
    if arrivals == [] {
      assert done + arrivals == done;
    } else {
      var (init, step) := (arrivals[..|arrivals| - 1], arrivals[|arrivals| - 1]);
      assert done + init + [step] == done + arrivals;
      ArrivalsKeepServer(clients, done, init);
      RunAppend(clients, done, init, step);
      RunIsOk(clients, done + init);
      OutsideKeepsServer(Run(clients, done + init), step);
    }
  }

  /** The text is the client's own for the next request on the connection. */
  ghost predicate IsNextText(s: System, c: nat, json: Tree) {
    && c < |s.conns| && s.conns[c].taken < |s.conns[c].inbox|
    && exists ms: nat, zone: int ::
         && IsClientRequest(s.conns[c].inbox[s.conns[c].taken], ms, zone)
         && json == ClientJson(s.conns[c].inbox[s.conns[c].taken], ms, zone)
  }

  lemma NextExists(s: System, c: nat, json: Tree)
    requires IsNextText(s, c, json)
    ensures c < |s.conns| && s.conns[c].taken < |s.conns[c].inbox|
  {
  }

  lemma NextText(s: System, c: nat, json: Tree) returns (ms: nat, zone: int)
    requires IsNextText(s, c, json)
    ensures c < |s.conns| && s.conns[c].taken < |s.conns[c].inbox|
    ensures IsClientRequest(s.conns[c].inbox[s.conns[c].taken], ms, zone)
    ensures json == ClientJson(s.conns[c].inbox[s.conns[c].taken], ms, zone)
  {
    ms, zone :| && IsClientRequest(s.conns[c].inbox[s.conns[c].taken], ms, zone)
                && json == ClientJson(s.conns[c].inbox[s.conns[c].taken], ms, zone);
  }

  lemma CrashOfRead(s: System, c: nat, now: int, failing: set<nat>)
    requires ListedExist(s) && CanRead(s, c) && s.conns[c].taken < |s.conns[c].inbox|
    ensures var request := s.conns[c].inbox[s.conns[c].taken];
            DoRead(s, c, now, failing).crashed
            == Broadcast(s.conns, s.srv.list, Reply(s.srv.names, request, now), failing).1
  {
    hide Broadcast, Reply, NamesAfter;
  }

  /** The tree that was read. */
  function TextOf(w: Wakeup): Tree {
    if w.incoming.Data? && w.incoming.json.Some? then w.incoming.json.value else Node([], [])
  }

  /** The connection of a registered socket. */
  ghost function NumberOf(at: map<nat, Socket>, waiting: set<nat>, child: Socket): nat {
    if exists c :: c in waiting && c in at && at[c] == child then
      var c :| c in waiting && c in at && at[c] == child; c
    else 0
  }

  lemma NumberIs(at: map<nat, Socket>, waiting: set<nat>, child: Socket)
    requires exists c :: c in waiting && c in at && at[c] == child
    ensures var c := NumberOf(at, waiting, child);
            c in waiting && c in at && at[c] == child
  {
  }

  /**
    What handling connection `c` amounts to. A text that is not the client's next request on it counts as a
    foreign request; an exception before anything is written amounts to nothing.
   */
  ghost function SocketSteps(fp: Fp, w: Wakeup, at: map<nat, Socket>, s: System, c: nat): seq<Step> {
    if c >= |s.conns| || !s.conns[c].open || w.incoming.RecvError? then [ReadError(c)]
    else if w.incoming.EndOfStream? then [ReadEnd(c)]
    else if w.incoming.json.None? then []
    else if IsNextText(s, c, TextOf(w)) then [ReadRequest(c, w.now, Numbers(at, w.failing))]
    else if Served(fp, s.srv.names, TextOf(w), w.now).None? then []
    else [Outsider(c, RequestOf(fp, TextOf(w))), ReadRequest(c, w.now, Numbers(at, w.failing))]
  }

  predicate Reads(steps: seq<Step>) {
    steps != [] && steps[|steps| - 1].ReadRequest?
  }

  /** The state in which a foreign request, if there is one, has arrived. */
  ghost function Asked(s: System, steps: seq<Step>): System
    requires ListedExist(s)
  {
    if |steps| == 2 then Apply(s, steps[0]) else s
  }

  /** The number of an accepted connection: the one that was waiting, or else one that nobody had announced. */
  function AcceptNumber(w: Wakeup, s: System): nat {
    if CanAccept(s, w.connection) then w.connection else |s.conns|
  }

  /** The state in which that connection waits. */
  function Reached(w: Wakeup, s: System): System {
    if CanAccept(s, w.connection) then s else DoDial(s)
  }

  function AcceptSteps(w: Wakeup, s: System): seq<Step> {
    if CanAccept(s, w.connection) then [AcceptSocket(w.connection)] else [Dial, AcceptSocket(|s.conns|)]
  }

  ghost function TurnSteps(fp: Fp, w: Wakeup, call: Call, at: map<nat, Socket>, s: System): seq<Step> {
    match call
    case NoCall => []
    case WaitThrew => []
    case OnStdin(line) => [Stdin(line)]
    case OnSocketServer => if w.acceptedFd.Some? then AcceptSteps(w, s) else []
    case OnSocket(child) => SocketSteps(fp, w, at, s, NumberOf(at, s.srv.waiting, child))
  }

  /** A turn throws if the wait does, the accept fails, the text is no request, or the broadcast throws. */
  ghost predicate TurnThrows(fp: Fp, w: Wakeup, call: Call, at: map<nat, Socket>, s: System, s': System) {
    || call.WaitThrew?
    || (call.OnSocketServer? && w.acceptedFd.None?)
    || (call.OnSocket? && (TurnSteps(fp, w, call, at, s) == [] || s'.crashed))
  }

  /** An accepted socket gets the next number; no other number changes. */
  ghost predicate Renumbered(w: Wakeup, call: Call, at: map<nat, Socket>, s: System, at': map<nat, Socket>) {
    if call.OnSocketServer? && w.acceptedFd.Some? then
      var c := AcceptNumber(w, s);
      && c !in at && c in at' && at' == at[c := at'[c]]
      && at'[c] !in at.Values && at'[c].fd == w.acceptedFd.value
    else at' == at
  }

  ghost function ReadyFds(selected: Selected, master: int, kill: int, at: map<nat, Socket>, s: System): set<int> {
    if selected.Ready? then
      selected.fds * ({STDIN_FD, master, kill}
                      + set c | c in s.srv.waiting && c in at && c < |s.conns| && s.conns[c].open :: at[c].fd)
    else {}
  }

  /** The call that a wait leads to in a state of the protocol, up to the choice among ready sockets. */
  ghost predicate Awaited(w: Wakeup, master: int, kill: int, at: map<nat, Socket>, s: System, call: Call) {
    var ready := ReadyFds(w.selected, master, kill, at, s);
    && (kill == -1 || w.selected.SelectFailed? ==> call == WaitThrew)
    && (kill != -1 && !w.selected.SelectFailed? ==>
          if kill in ready then call == if w.killBytes == 0 || w.killBytes == 8 then NoCall else WaitThrew
          else if STDIN_FD in ready then call == if w.line.Some? then Call.OnStdin(Stripped(w.line.value)) else WaitThrew
          else if master in ready then call == Call.OnSocketServer
          else if exists c :: c in s.srv.waiting && c in at && at[c].fd in ready then call.OnSocket?
          else call == NoCall)
    && (call.OnSocket? ==> exists c :: c in s.srv.waiting && c in at && at[c] == call.child && call.child.fd in ready)
  }

  /** The kill descriptor, the numbering, and the run so far. */
  datatype Snapshot = Snapshot(kill: int, at: map<nat, Socket>, done: seq<Step>)

  ghost predicate TurnTaken(fp: Fp, clients: nat, master: int, w: Wakeup, before: Snapshot, call: Call, after: Snapshot,
                            threw: bool)
  {
    var now := before.done + w.arrivals;
    var (s, s') := (Run(clients, now), Run(clients, after.done));
    && after.kill == (if before.kill == -1 then w.newEvent else before.kill)
    && Awaited(w, master, after.kill, before.at, s, call)
    && after.done == now + TurnSteps(fp, w, call, before.at, s)
    && Renumbered(w, call, before.at, s, after.at)
    && threw == TurnThrows(fp, w, call, before.at, s, s')
  }

  /** Standard input is ready, and nothing goes before it. */
  ghost predicate StdinTurn(clients: nat, master: int, w: Wakeup, before: Snapshot, kill: int) {
    var ready := ReadyFds(w.selected, master, kill, before.at, Run(clients, before.done + w.arrivals));
    kill != -1 && !w.selected.SelectFailed? && kill !in ready && STDIN_FD in ready
  }

  /** In the loop: the line "exit", with its newline or without, ends the activity, and no other line does. */
  lemma ExitLineEnds(fp: Fp, clients: nat, master: int, w: Wakeup, before: Snapshot, call: Call, after: Snapshot,
                     threw: bool)
    requires TurnTaken(fp, clients, master, w, before, call, after, threw)
    requires StdinTurn(clients, master, w, before, after.kill) && w.line.Some?
    requires var s := Run(clients, before.done + w.arrivals);
             s.srv.active && !s.crashed
    ensures !Run(clients, after.done).srv.active <==> w.line == Some("exit\n") || w.line == Some("exit")
    ensures var (s, s') := (Run(clients, before.done + w.arrivals), Run(clients, after.done));
            && s'.srv.list == (if s'.srv.active then s.srv.list else OddPositions(s.srv.list))
            && s'.conns == s.conns && s'.srv.names == s.srv.names
  {
    hide Run, ReadyFds, OddPositions, ServerOk, ExitLoop;
    var now := before.done + w.arrivals;
    StrippedBack(w.line.value);
    StrippedOnce("exit");
    assert "exit" + "\n" == "exit\n";
    OneStep(clients, now, Stdin(call.line));
    RunIsOk(clients, now);
    StdinInRun(Run(clients, now), call.line);
  }

  lemma FaultlessServed(fp: Fp, w: Wakeup, names: seq<string>)
    requires Faultless(fp, w) && w.incoming.Data?
    ensures Served(fp, names, w.incoming.json.value, w.now).Some?
  {
    hide RequestOutcome;
  }

  predicate OutsideServer(step: Step) {
    step.OfClient? || step.Dial? || step.Outsider?
  }

  /** What clients and others do on their side. */
  type OutsideStep = step: Step | OutsideServer(step) witness Dial

  /**
    Everything the outside decides about one turn of the server's loop: what happens before the wait, and
    what the system calls give. A connection that is accepted is `connection`, if that one waits for it.
   */
  datatype Wakeup = Wakeup(arrivals: seq<OutsideStep>, newEvent: int, selected: Selected, killBytes: nat,
                           line: Option<string>, acceptedFd: Option<int>, connection: nat, incoming: Recv, now: int,
                           failing: set<Socket>)

  /** No system call fails, and what is read is a well-formed tree. */
  ghost predicate Faultless(fp: Fp, w: Wakeup) {
    && w.newEvent != -1 && !w.selected.SelectFailed? && w.killBytes in {0, 8} && w.line.Some? && w.acceptedFd.Some?
    && !w.incoming.RecvError? && w.failing == {}
    && (w.incoming.Data? ==> w.incoming.json.Some? && !RequestOutcome(fp, w.incoming.json.value).Propagated?)
  }
}
