/** Clients, causality and replies: the invariants that tie both ends of the channels together. */
module ProtocolClients {
  import opened Messages
  import opened ServerCore
  import opened ClientCore
  import opened Protocol
  import opened ProtocolInvariants

  // ----- logins on one channel are unique

  lemma SegmentLoginsUnique(s: System, c: Client)
    requires ServerOk(s)
    ensures LoginsUnique(ReceivedBy(s, c))
  {
    DistinctNamesUniqueLogins(s.log);
    hide LoginNames, NoDuplicates, InSync, UpToDate, FaultFree;
    if c.conn.Some? && c.conn.value < |s.conns| {
      var conn := s.conns[c.conn.value];
      assert Segment(conn, s.log);
      forall i, j | 0 <= i < j < |conn.sent| && conn.sent[i].LoginResponse? && conn.sent[j].LoginResponse?
        ensures conn.sent[i].username != conn.sent[j].username
      {
        assert conn.sent[i] == s.log[conn.start + i] && conn.sent[j] == s.log[conn.start + j];
      }
    }
  }

  // ----- every client is consistent with what it received

  predicate ClientsOk(s: System) {
    forall k :: 0 <= k < |s.clients| ==>
      && (s.clients[k].conn.Some? ==> s.clients[k].conn.value < |s.conns|)
      && ClientOk(s.clients[k], ReceivedBy(s, s.clients[k]))
  }

  /** Channels only grow, and what was read stays. */
  predicate ChannelsGrow(s: System, s': System) {
    && |s.conns| <= |s'.conns|
    && forall c :: 0 <= c < |s.conns| ==> s.conns[c].sent <= s'.conns[c].sent && KeepsRead(s.conns[c], s'.conns[c].inbox)
  }

  lemma ReadGrowsChannels(s: System, c: nat, now: int, failing: set<nat>)
    requires ServerOk(s)
    ensures var s' := DoRead(s, c, now, failing);
            ChannelsGrow(s, s') && s.log <= s'.log && s'.clients == s.clients
  {
    if CanRead(s, c) && s.conns[c].taken < |s.conns[c].inbox| {
      ReadEffect(s, c, now, failing);
      hide Broadcast, Reply, NamesAfter, Segments, UpToDate, FaultFree, NamesMatch, InSync, NoDuplicates, DoRead;
    }
  }

  lemma CloseGrowsChannels(s: System, c: nat, line: string)
    requires ServerOk(s)
    ensures ChannelsGrow(s, DoAccept(s, c)) && ChannelsGrow(s, DoReadEnd(s, c))
    ensures ChannelsGrow(s, DoReadError(s, c)) && ChannelsGrow(s, DoStdin(s, line))
  {
    hide ServerOk, ExitLoop, Remove, Accept;
  }

  lemma StepGrowsChannels(s: System, step: Step)
    requires ServerOk(s)
    ensures ChannelsGrow(s, Apply(s, step)) && s.log <= Apply(s, step).log
    ensures !step.OfClient? ==> Apply(s, step).clients == s.clients
  {
    hide ServerOk, DoRead, ExitLoop, Remove, Accept, DoClient, CanRead;
    match step
    case AcceptSocket(c) => CloseGrowsChannels(s, c, []);
    case ReadRequest(c, now, failing) => ReadGrowsChannels(s, c, now, failing);
    case ReadEnd(c) => CloseGrowsChannels(s, c, []);
    case ReadError(c) => CloseGrowsChannels(s, c, []);
    case Stdin(line) => CloseGrowsChannels(s, 0, line);
    case OfClient(k, a) => ClientsOnlyAddRequests(s, k, a);
    case Dial => DialAddsConnection(s);
    case Outsider(c, request) => OutsidersOnlyAddRequests(s, c, request);
  }

  lemma GrowthKeepsClient(s: System, s': System, c: Client)
    requires ChannelsGrow(s, s') && (c.conn.Some? ==> c.conn.value < |s.conns|) && ClientOk(c, ReceivedBy(s, c))
    ensures ClientOk(c, ReceivedBy(s', c))
    ensures LockedOut(c, ReceivedBy(s, c)) <==> LockedOut(c, ReceivedBy(s', c))
  {
    hide ClientOk, LockedOut;
    var (a, b) := (ReceivedBy(s, c), ReceivedBy(s', c));
    assert a <= b;
    MoreReplies(c, a, b[|a|..]);
    assert a + b[|a|..] == b;
  }

  /** The acting client, after its step, seen against the channels before the step. */
  lemma ActingClient(s: System, k: nat, a: Action)
    requires ServerOk(s) && ClientsOk(s) && k < |s.clients|
    ensures var s' := DoClient(s, k, a);
            var c' := s'.clients[k];
            && |s'.clients| == |s.clients|
            && (forall j :: 0 <= j < |s.clients| && j != k ==> s'.clients[j] == s.clients[j])
            && (c'.conn.Some? ==> c'.conn.value < |s'.conns|)
            && ClientOk(c', ReceivedBy(s', c'))
  {
    var c := s.clients[k];
    var s' := DoClient(s, k, a);
    SegmentLoginsUnique(s, c);
    hide ServerOk, DisplayOk;
    if a.OpenSocket? {
      if c.reader.Connecting? && !c.stopped {
        ActKeepsClient(c, OpenSocket(|s.conns|), []);
      }
    } else {
      ActKeepsClient(c, a, ReceivedBy(s, c));
      hide ClientOk;
      assert s'.clients[k] == Act(c, a, ReceivedBy(s, c));
      ActKeepsConn(c, a, ReceivedBy(s, c));
    }
  }

  lemma ActKeepsConn(c: Client, a: Action, sent: seq<Instance>)
    ensures !a.OpenSocket? ==> Act(c, a, sent).conn == c.conn
  {
  }

  lemma StepKeepsClients(s: System, step: Step)
    requires ServerOk(s) && ClientsOk(s)
    ensures ClientsOk(Apply(s, step))
  {
    var s' := Apply(s, step);
    StepGrowsChannels(s, step);
    if step.OfClient? && step.k < |s.clients| {
      ActingClient(s, step.k, step.action);
    }
    hide ServerOk, ClientOk, ReceivedBy, Apply, ChannelsGrow;
    forall j | 0 <= j < |s'.clients|
      ensures (s'.clients[j].conn.Some? ==> s'.clients[j].conn.value < |s'.conns|)
              && ClientOk(s'.clients[j], ReceivedBy(s', s'.clients[j]))
    {
      if !(step.OfClient? && j == step.k) {
        GrowthKeepsClient(s, s', s.clients[j]);
      }
    }
  }

  // ----- causality

  /** Every message request from a user waits on a login response for that user in the log. */
  predicate Vouched(requests: seq<Instance>, log: seq<Instance>) {
    forall i :: 0 <= i < |requests| && requests[i].MessageRequest? ==> LoginIn(log, requests[i].from)
  }

  /** Holds as long as only the clients' code writes requests. */
  predicate Causal(s: System) {
    !s.rogue ==>
      && (forall k :: 0 <= k < |s.clients| ==> Vouched(s.clients[k].pending, s.log))
      && (forall c :: 0 <= c < |s.conns| ==> Vouched(s.conns[c].inbox, s.log))
  }

  lemma LoginInGrows(log: seq<Instance>, log': seq<Instance>, user: string)
    requires LoginIn(log, user) && log <= log'
    ensures LoginIn(log', user)
  {
    var i :| 0 <= i < |log| && IsLogin(log[i], user);
    assert IsLogin(log'[i], user);
  }

  lemma VouchedGrows(requests: seq<Instance>, log: seq<Instance>, log': seq<Instance>)
    requires Vouched(requests, log) && log <= log'
    ensures Vouched(requests, log')
  {
    hide LoginIn;
    forall i | 0 <= i < |requests| && requests[i].MessageRequest? ensures LoginIn(log', requests[i].from) {
      LoginInGrows(log, log', requests[i].from);
    }
  }

  /** A logged-in client has received its login response, so the log has it. */
  lemma LoggedInIsLogged(s: System, c: Client)
    requires ServerOk(s) && ClientOk(c, ReceivedBy(s, c)) && c.state.IsLoggedIn?
    requires c.conn.Some? ==> c.conn.value < |s.conns|
    ensures LoginIn(s.log, c.user)
  {
    var f := FirstLogin(ReceivedBy(s, c), c.user);
    assert f < |ReceivedBy(s, c)|;
    var conn := s.conns[c.conn.value];
    assert Segment(conn, s.log);
    assert IsLogin(s.log[conn.start + f], c.user);
  }

  /** The guard of `onMsgSend` is what vouches for a new message request. */
  lemma ClientKeepsCausal(s: System, k: nat, a: Action)
    requires ServerOk(s) && ClientsOk(s) && Causal(s)
    ensures Causal(DoClient(s, k, a))
  {
    if k < |s.clients| && !s.rogue {
      var c := s.clients[k];
      if c.state.IsLoggedIn? {
        LoggedInIsLogged(s, c);
      }
      assert Vouched(c.pending, s.log);
      hide ServerOk, ClientOk, LoginIn, ReceivedBy, Vouched, Act, ReaderConnects, SendDone;
      PendingStaysVouched(c, a, ReceivedBy(s, c), s.log);
      if SendReady(c) {
        SentStaysVouched(c, a, s.log);
        if c.conn.Some? && c.conn.value < |s.conns| {
          OneMoreVouched(s.conns[c.conn.value].inbox, c.pending[0], s.log);
        }
      }
      NothingVouched(s.log);
      PendingUntouched(c, |s.conns|);
    }
  }

  lemma NothingVouched(log: seq<Instance>)
    ensures Vouched([], log)
  {
  }

  lemma PendingUntouched(c: Client, conn: nat)
    ensures ReaderConnects(c, conn).pending == c.pending
  {
  }

  lemma OneMoreVouched(requests: seq<Instance>, m: Instance, log: seq<Instance>)
    requires Vouched(requests, log) && (m.MessageRequest? ==> LoginIn(log, m.from))
    ensures Vouched(requests + [m], log)
  {
    hide LoginIn;
  }

  lemma SentStaysVouched(c: Client, a: Action, log: seq<Instance>)
    requires Vouched(c.pending, log) && SendReady(c)
    ensures c.pending[0].MessageRequest? ==> LoginIn(log, c.pending[0].from)
    ensures Vouched(SendDone(c).pending, log)
  {
    hide LoginIn;
  }

  lemma PendingStaysVouched(c: Client, a: Action, sent: seq<Instance>, log: seq<Instance>)
    requires Vouched(c.pending, log) && (c.state.IsLoggedIn? ==> LoginIn(log, c.user))
    ensures Vouched(Act(c, a, sent).pending, log)
  {
    hide LoginIn;
  }

  lemma ReadKeepsCausal(s: System, c: nat, now: int, failing: set<nat>)
    requires ServerOk(s) && Causal(s)
    ensures Causal(DoRead(s, c, now, failing))
  {
    var s' := DoRead(s, c, now, failing);
    if !s.rogue && CanRead(s, c) && s.conns[c].taken < |s.conns[c].inbox| {
      ReadEffect(s, c, now, failing);
      hide Broadcast, NamesAfter, LoginIn, Reply, Vouched, InSync, Segments, UpToDate, FaultFree, NamesMatch;
      forall k | 0 <= k < |s'.clients| ensures Vouched(s'.clients[k].pending, s'.log) {
        VouchedGrows(s.clients[k].pending, s.log, s'.log);
      }
      forall d | 0 <= d < |s'.conns| ensures Vouched(s'.conns[d].inbox, s'.log) {
        VouchedGrows(s.conns[d].inbox, s.log, s'.log);
      }
    }
  }

  lemma StepKeepsCausal(s: System, step: Step)
    requires ServerOk(s) && ClientsOk(s) && Causal(s)
    ensures Causal(Apply(s, step))
  {
    if step.OfClient? {
      ClientKeepsCausal(s, step.k, step.action);
    } else if step.ReadRequest? {
      ReadKeepsCausal(s, step.c, step.now, step.failing);
    } else {
      hide ServerOk, ClientsOk, Vouched, Remove, Accept, ExitLoop;
    }
  }

  // ----- when a log is causal

  /** Each message response is behind a login response for its originator. */
  predicate LogCausal(log: seq<Instance>) {
    forall j :: 0 <= j < |log| && log[j].MessageResponse? ==> LoginIn(log[..j], log[j].originator)
  }

  /** The check that the server does not make: the sender of a message it is about to read has an accepted name. */
  predicate Guarded(s: System, step: Step) {
    step.ReadRequest? && CanRead(s, step.c) && s.conns[step.c].taken < |s.conns[step.c].inbox| ==>
      var request := s.conns[step.c].inbox[s.conns[step.c].taken];
      request.MessageRequest? ==> request.from in s.srv.names
  }

  lemma CausalByOneMore(log: seq<Instance>, reply: Instance)
    ensures LogCausal(log + [reply]) <==>
            LogCausal(log) && (reply.MessageResponse? ==> LoginIn(log, reply.originator))
  {
    var log' := log + [reply];
    hide LoginIn;
    assert forall j :: 0 <= j < |log| ==> log'[j] == log[j] && log'[..j] == log[..j];
    assert log'[|log|] == reply && log'[..|log|] == log;
  }

  /** A step keeps the log causal exactly if the check would have passed. */
  lemma StepCausalExactly(s: System, step: Step)
    requires ServerOk(s)
    ensures LogCausal(Apply(s, step).log) <==> LogCausal(s.log) && Guarded(s, step)
  {
    if step.ReadRequest? && CanRead(s, step.c) && s.conns[step.c].taken < |s.conns[step.c].inbox| {
      var request := s.conns[step.c].inbox[s.conns[step.c].taken];
      ReadEffect(s, step.c, step.now, step.failing);
      CausalByOneMore(s.log, Reply(s.srv.names, request, step.now));
      if request.MessageRequest? {
        LoginNamesAre(s.log, request.from);
      }
      hide Broadcast, LogCausal, LoginIn, Registry, Segments, UpToDate, FaultFree, LoginNames, NoDuplicates;
    } else {
      StepKeepsLog(s, step);
      hide LogCausal, ServerOk;
    }
  }

  /** Only reading a request adds to the log. */
  lemma StepKeepsLog(s: System, step: Step)
    requires ListedExist(s)
    ensures !(step.ReadRequest? && CanRead(s, step.c) && s.conns[step.c].taken < |s.conns[step.c].inbox|) ==>
              Apply(s, step).log == s.log
  {
    hide Act, ExitLoop, Remove, Accept, ReaderConnects, SendDone, ReceivedBy;
  }

  /** While only clients write requests, the guard in the client makes the check pass. */
  lemma ClientsMakeGuarded(s: System, step: Step)
    requires ServerOk(s) && Causal(s) && !s.rogue
    ensures Guarded(s, step)
  {
    if step.ReadRequest? && CanRead(s, step.c) && s.conns[step.c].taken < |s.conns[step.c].inbox| {
      var request := s.conns[step.c].inbox[s.conns[step.c].taken];
      assert Vouched(s.conns[step.c].inbox, s.log);
      if request.MessageRequest? {
        LoginNamesAre(s.log, request.from);
      }
    }
  }
}
