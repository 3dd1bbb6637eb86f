/** Whose requests are on a connection: while only clients write, each connection has one owner, who signs them. */
module ProtocolOwners {
  import opened Wrappers
  import opened Messages
  import opened ServerCore
  import opened ClientCore
  import opened Protocol
  import opened ProtocolInvariants
  import opened ProtocolClients
  import opened ProtocolReplies

  predicate Owns(s: System, k: nat, c: nat) {
    k < |s.clients| && s.clients[k].conn == Some(c)
  }

  /** Login and message requests signed with the name, none of them an empty message. */
  predicate SignedBy(requests: seq<Instance>, user: string) {
    forall i :: 0 <= i < |requests| ==>
      && (requests[i].LoginRequest? || requests[i].MessageRequest?) && requests[i].from == user
      && (requests[i].MessageRequest? ==> requests[i].content != [])
  }

  /** Holds as long as only the clients' code writes requests. */
  ghost predicate Owned(s: System) {
    !s.rogue ==>
      && (forall k :: 0 <= k < |s.clients| ==> SignedBy(s.clients[k].pending, s.clients[k].user))
      && (forall c :: 0 <= c < |s.conns| && s.conns[c].inbox != [] ==> exists k: nat :: Owns(s, k, c))
      && (forall k: nat, c: nat :: c < |s.conns| && Owns(s, k, c) ==> SignedBy(s.conns[c].inbox, s.clients[k].user))
      && (forall k: nat, l: nat, c: nat :: Owns(s, k, c) && Owns(s, l, c) ==> k == l)
  }

  /** One client's step: its queue stays signed, and its name changes only while it has neither requests nor connection. */
  lemma ActKeepsSigned(c: Client, a: Action, sent: seq<Instance>)
    requires PhasesOk(c, sent) && SignedBy(c.pending, c.user)
    ensures var c' := Act(c, a, sent);
            && SignedBy(c'.pending, c'.user)
            && (c'.user != c.user ==> c.pending == [] && c.conn.None?)
  {
  }

  /** A new connection belongs to the client that opened it. */
  lemma OpeningKeepsOwned(s: System, k: nat, conn: nat)
    requires ClientsOk(s) && Owned(s) && !s.rogue && k < |s.clients| && s.clients[k].reader.Connecting?
    requires !s.clients[k].stopped
    ensures Owned(DoClient(s, k, OpenSocket(conn)))
  {
    var (c, s') := (s.clients[k], DoClient(s, k, OpenSocket(conn)));
    assert ClientOk(c, ReceivedBy(s, c));
    assert c.conn.None?;
    hide ClientOk, ReceivedBy, SignedBy;
    NothingSigned(c.user);
    forall d | 0 <= d < |s'.conns| && s'.conns[d].inbox != [] ensures exists l: nat :: Owns(s', l, d) {
      var l: nat :| Owns(s, l, d);
      assert Owns(s', l, d);
    }
    forall l: nat, d: nat | d < |s'.conns| && Owns(s', l, d) ensures SignedBy(s'.conns[d].inbox, s'.clients[l].user) {
      assert l != k ==> Owns(s, l, d);
    }
    forall l: nat, m: nat, d: nat | Owns(s', l, d) && Owns(s', m, d) ensures l == m {
      assert (l != k ==> Owns(s, l, d)) && (m != k ==> Owns(s, m, d));
    }
  }

  /** A request that is sent goes from the owner's queue to the owner's connection. */
  lemma SendingKeepsOwned(s: System, k: nat, d: nat)
    requires Owned(s) && !s.rogue && Owns(s, k, d) && ClientsOk(s)
    requires SendReady(s.clients[k]) && !s.clients[k].stopped
    ensures Owned(DoClient(s, k, RunSendTask))
  {
    var (c, s') := (s.clients[k], DoClient(s, k, RunSendTask));
    OwnedExist(s);
    SentIsSigned(s.conns[d].inbox, c);
    hide ClientsOk;
    hide SignedBy;
    OwnersStay(s, s', k);
  }

  lemma SentIsSigned(inbox: seq<Instance>, c: Client)
    requires SignedBy(inbox, c.user) && SignedBy(c.pending, c.user) && SendReady(c)
    ensures SignedBy(inbox + [c.pending[0]], c.user) && SignedBy(SendDone(c).pending, c.user)
    ensures SendDone(c).user == c.user && SendDone(c).conn == c.conn
  {
  }

  /** A step after which every connection has the same owner and, but for the owner `k` adding to them, the same requests. */
  lemma OwnersStay(s: System, s': System, k: nat)
    requires Owned(s) && !s.rogue && |s.clients| == |s'.clients| && |s.conns| <= |s'.conns|
    requires forall l: nat, d: nat :: Owns(s, l, d) ==> d < |s.conns|
    requires forall l :: 0 <= l < |s.clients| ==>
               && s'.clients[l].conn == s.clients[l].conn && SignedBy(s'.clients[l].pending, s'.clients[l].user)
               && (s'.clients[l].user != s.clients[l].user ==> s.clients[l].conn.None?)
    requires forall d :: 0 <= d < |s.conns| ==>
               s'.conns[d].inbox == s.conns[d].inbox
               || (Owns(s, k, d) && SignedBy(s'.conns[d].inbox, s'.clients[k].user))
    requires forall d :: |s.conns| <= d < |s'.conns| ==> s'.conns[d].inbox == []
    ensures Owned(s')
  {
    hide SignedBy;
    assert forall l: nat, d: nat :: Owns(s', l, d) <==> Owns(s, l, d);
    forall d | 0 <= d < |s'.conns| && s'.conns[d].inbox != [] ensures exists l: nat :: Owns(s', l, d) {
      if s'.conns[d].inbox == s.conns[d].inbox {
        var l: nat :| Owns(s, l, d);
        assert Owns(s', l, d);
      }
    }
    forall l: nat, d: nat | d < |s'.conns| && Owns(s', l, d) ensures SignedBy(s'.conns[d].inbox, s'.clients[l].user) {
      assert Owns(s, l, d);
    }
  }

  lemma OwnedExist(s: System)
    requires ClientsOk(s)
    ensures forall l: nat, d: nat :: Owns(s, l, d) ==> d < |s.conns|
  {
    hide ClientOk;
  }

  lemma ClientKeepsOwned(s: System, k: nat, a: Action)
    requires ClientsOk(s) && Owned(s)
    ensures Owned(DoClient(s, k, a))
  {
    if k < |s.clients| && !s.rogue {
      OwnedExist(s);
      var c := s.clients[k];
      assert ClientOk(c, ReceivedBy(s, c));
      ActKeepsSigned(c, a, ReceivedBy(s, c));
      ActKeepsConn(c, a, ReceivedBy(s, c));
      if a.OpenSocket? && c.reader.Connecting? && !c.stopped {
        OpeningKeepsOwned(s, k, a.conn);
      } else if a.RunSendTask? && !c.stopped && SendReady(c) && c.conn.Some? && c.conn.value < |s.conns| {
        SendingKeepsOwned(s, k, c.conn.value);
      } else if !a.OpenSocket? {
        hide ClientOk, ReceivedBy, Act, SignedBy, ClientsOk;
        OwnersStay(s, DoClient(s, k, a), k);
      }
    }
  }

  lemma NothingSigned(user: string)
    ensures SignedBy([], user)
  {
  }

  /** What the server does to the channels leaves requests and owners alone. */
  lemma ReadKeepsOwned(s: System, c: nat, now: int, failing: set<nat>)
    requires ServerOk(s) && ClientsOk(s) && Owned(s)
    ensures Owned(DoRead(s, c, now, failing))
  {
    NothingToRead(s, c, now, failing);
    if CanRead(s, c) && s.conns[c].taken < |s.conns[c].inbox| && !s.rogue {
      ReadEffect(s, c, now, failing);
      ReadKeepsClients(s, c, now, failing);
      OwnedExist(s);
      var s' := DoRead(s, c, now, failing);
      hide DoRead, Reply, SignedBy, InSync, Segments, UpToDate, FaultFree, NamesMatch, ClientsOk, Owned;
      assert forall d :: 0 <= d < |s.conns| ==> s'.conns[d].inbox == s.conns[d].inbox by {
        assert forall d :: 0 <= d < |s.conns| ==> d in s.srv.list || d !in s.srv.list;
      }
      QueuesSigned(s);
      OwnersStay(s, s', 0);
    }
  }

  lemma ReadKeepsClients(s: System, c: nat, now: int, failing: set<nat>)
    requires ListedExist(s)
    ensures DoRead(s, c, now, failing).clients == s.clients && DoRead(s, c, now, failing).rogue == s.rogue
  {
    hide Broadcast, Reply, NamesAfter;
  }

  lemma QueuesSigned(s: System)
    requires Owned(s) && !s.rogue
    ensures forall l :: 0 <= l < |s.clients| ==> SignedBy(s.clients[l].pending, s.clients[l].user)
  {
    hide SignedBy;
  }

  lemma StepKeepsOwned(s: System, step: Step)
    requires ServerOk(s) && ClientsOk(s) && Owned(s)
    ensures Owned(Apply(s, step))
  {
    var s' := Apply(s, step);
    if step.OfClient? {
      ClientKeepsOwned(s, step.k, step.action);
    } else if step.ReadRequest? {
      ReadKeepsOwned(s, step.c, step.now, step.failing);
    } else {
      OwnedExist(s);
      hide ServerOk, ClientsOk, SignedBy, Remove, Accept, ExitLoop, DoClient, DoRead, Owned;
      if !s.rogue && !step.Outsider? {
        QueuesSigned(s);
        OwnersStay(s, s', 0);
      } else {
        RogueIsOwned(s');
      }
    }
  }

  lemma RogueIsOwned(s: System)
    ensures s.rogue ==> Owned(s)
  {
  }

  /** While only clients write, a login response answers a client that owns the asking connection and has that name. */
  lemma LoginAnswersOwner(s: System, j: nat)
    requires Owned(s) && Answered(s) && !s.rogue && j < |s.log| && s.log[j].LoginResponse?
    ensures |s.asker| == |s.log| && exists k: nat :: Owns(s, k, s.asker[j]) && s.clients[k].user == s.log[j].username
  {
    assert EntryOk(s, j);
    var c := s.asker[j];
    var i := Count(s.asker[..j], c);
    hide Count, LoginIn;
    assert Answers(s.log[..j], s.conns[c].inbox[i], s.log[j]);
    var k: nat :| Owns(s, k, c);
    assert SignedBy(s.conns[c].inbox, s.clients[k].user);
  }
}
