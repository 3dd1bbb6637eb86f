/** What every step of the chat system keeps. */
module ProtocolInvariants {
  import opened Messages
  import opened ServerCore
  import opened ClientCore
  import opened Protocol

  // ----- the broadcast

  /** The connection gets the reply, or the failed write closes it, or the broadcast did not reach it. */
  predicate Delivered(before: Conn, after: Conn, reply: Instance, ok: bool) {
    before.open && after == Written(before, reply, ok)
  }

  /** Who gets what in one broadcast to distinct sockets. */
  lemma {:induction false} BroadcastDelivers(conns: seq<Conn>, list: seq<nat>, reply: Instance, failing: set<nat>)
    requires NoDuplicates(list) && forall i :: 0 <= i < |list| ==> list[i] < |conns|
    ensures var (conns', crashed) := Broadcast(conns, list, reply, failing);
            && (forall c :: 0 <= c < |conns| && c !in list ==> conns'[c] == conns[c])
            && (forall c :: 0 <= c < |conns| && c in list ==>
                  conns'[c] == conns[c] || Delivered(conns[c], conns'[c], reply, c !in failing))
            && (!crashed ==> forall c :: 0 <= c < |conns| && c in list ==>
                  Delivered(conns[c], conns'[c], reply, c !in failing))
            && ((forall i :: 0 <= i < |list| ==> conns[list[i]].open) ==> !crashed)
    decreases |list|
  {
    if list != [] && conns[list[0]].open {
      var d := list[0];
      var mid := conns[d := Written(conns[d], reply, d !in failing)];
      assert forall i :: 0 <= i < |list[1..]| ==> list[1..][i] == list[i + 1] && list[i + 1] != d;
      BroadcastDelivers(mid, list[1..], reply, failing);
      assert forall c :: c in list <==> c == d || c in list[1..];
      assert d !in list[1..];
    }
  }

  /** The same, seen from one connection after a read: who asked has one request less to be read. */
  predicate AfterRead(before: Conn, after: Conn, asked: bool, reached: bool, reply: Instance, ok: bool) {
    && after.inbox == before.inbox && after.accepted == before.accepted && after.start == before.start
    && after.taken == before.taken + (if asked then 1 else 0)
    && (!reached ==> after.sent == before.sent && after.open == before.open)
    && (reached ==> before.open && after.open == ok
                    && after.sent == if ok then before.sent + [reply] else before.sent)
  }

  /** A read request is answered once, in the log and on every socket the broadcast reaches. */
  lemma ReadEffect(s: System, c: nat, now: int, failing: set<nat>)
    requires Registry(s) && CanRead(s, c) && s.conns[c].taken < |s.conns[c].inbox|
    ensures var s' := DoRead(s, c, now, failing);
            var reply := Reply(s.srv.names, s.conns[c].inbox[s.conns[c].taken], now);
            && |s'.conns| == |s.conns| && s'.log == s.log + [reply]
            && (forall d :: 0 <= d < |s.conns| && d !in s.srv.list ==>
                  AfterRead(s.conns[d], s'.conns[d], d == c, false, reply, true))
            && (forall d :: 0 <= d < |s.conns| && d in s.srv.list ==>
                  || AfterRead(s.conns[d], s'.conns[d], d == c, false, reply, true)
                  || AfterRead(s.conns[d], s'.conns[d], d == c, true, reply, d !in failing))
            && (!s'.crashed ==> forall d :: 0 <= d < |s.conns| && d in s.srv.list ==>
                  AfterRead(s.conns[d], s'.conns[d], d == c, true, reply, d !in failing))
            && ((forall d :: d in s.srv.list ==> s.conns[d].open) ==> !s'.crashed)
  {
    var request := s.conns[c].inbox[s.conns[c].taken];
    BroadcastDelivers(s.conns, s.srv.list, Reply(s.srv.names, request, now), failing);
    hide Broadcast, Reply, InSync;
  }

  // ----- the invariants

  /** Both registries agree, and hold accepted connections only. */
  predicate Registry(s: System) {
    && ListedExist(s) && InSync(s.srv)
    && forall c :: c in s.srv.list ==> c < |s.conns| && s.conns[c].accepted
  }

  predicate Segment(conn: Conn, log: seq<Instance>) {
    && conn.start + |conn.sent| <= |log| && conn.sent == log[conn.start..conn.start + |conn.sent|]
    && (!conn.accepted ==> conn.open && conn.sent == [])
  }

  /** What a socket was sent is one contiguous piece of the log, from its accept on. */
  predicate Segments(s: System) {
    forall c :: 0 <= c < |s.conns| ==> Segment(s.conns[c], s.log)
  }

  /** A listed open socket has everything up to the end of the log. */
  predicate UpToDate(s: System) {
    !s.crashed ==> forall c :: c in s.srv.list && c < |s.conns| && s.conns[c].open ==>
                     s.conns[c].start + |s.conns[c].sent| == |s.log|
  }

  /** As long as no `recv` or `write` failed, every listed socket is open and no broadcast threw. */
  predicate FaultFree(s: System) {
    !s.faulty ==> !s.crashed && forall c :: c in s.srv.list && c < |s.conns| ==> s.conns[c].open
  }

  /** The name list is the log's login responses, each name once. */
  predicate NamesMatch(s: System) {
    s.srv.names == LoginNames(s.log) && NoDuplicates(s.srv.names)
  }

  predicate ServerOk(s: System) {
    Registry(s) && Segments(s) && UpToDate(s) && FaultFree(s) && NamesMatch(s)
  }

  // ----- steps outside the server

  /** An inbox grows without a change to what has been read of it. */
  predicate KeepsRead(conn: Conn, inbox: seq<Instance>) {
    |conn.inbox| <= |inbox| && forall i :: 0 <= i < conn.taken && i < |conn.inbox| ==> inbox[i] == conn.inbox[i]
  }

  /** Nothing but the inboxes grows, and new connections are blank. */
  predicate OnlyInboxes(s: System, s': System) {
    && s'.srv == s.srv && s'.crashed == s.crashed && s'.log == s.log && s'.asker == s.asker && s'.faulty == s.faulty
    && |s.conns| <= |s'.conns|
    && (forall c :: 0 <= c < |s.conns| ==>
          KeepsRead(s.conns[c], s'.conns[c].inbox) && s'.conns[c] == s.conns[c].(inbox := s'.conns[c].inbox))
    && (forall c :: |s.conns| <= c < |s'.conns| ==> s'.conns[c] == Conn(false, true, s'.conns[c].inbox, 0, [], 0))
  }

  lemma ClientsOnlyAddRequests(s: System, k: nat, a: Action)
    ensures OnlyInboxes(s, DoClient(s, k, a))
  {
    hide Act, ReaderConnects, SendDone, ReceivedBy;
  }

  lemma OutsidersOnlyAddRequests(s: System, c: nat, request: Instance)
    ensures OnlyInboxes(s, DoOutsider(s, c, request))
  {
  }

  lemma DialAddsConnection(s: System)
    ensures OnlyInboxes(s, DoDial(s))
  {
  }

  lemma InboxesKeepServer(s: System, s': System)
    requires ServerOk(s) && OnlyInboxes(s, s')
    ensures ServerOk(s')
  {
    hide InSync, NoDuplicates, LoginNames;
    forall c | 0 <= c < |s'.conns| ensures Segment(s'.conns[c], s'.log) {
      if c < |s.conns| {
        assert Segment(s.conns[c], s.log);
      }
    }
  }

  // ----- the server's steps

  lemma AcceptKeepsServer(s: System, c: nat)
    requires ServerOk(s)
    ensures ServerOk(DoAccept(s, c))
  {
    var s' := DoAccept(s, c);
    if s.srv.active && !s.crashed && c < |s.conns| && !s.conns[c].accepted {
      AcceptKeepsSync(s.srv, c);
      hide InSync, NoDuplicates, LoginNames;
      assert Segment(s.conns[c], s.log);
      assert Segment(s'.conns[c], s'.log);
      forall i | 0 <= i < |s'.srv.list| ensures s'.srv.list[i] < |s'.conns| {
        assert s'.srv.list[i] in s'.srv.list;
      }
    }
  }

  lemma CloseKeepsServer(s: System, c: nat)
    requires ServerOk(s)
    ensures ServerOk(DoReadEnd(s, c)) && ServerOk(DoReadError(s, c))
  {
    hide *;
    EndKeepsServer(s, c);
    ErrorKeepsServer(s, c);
  }

  lemma ErrorKeepsServer(s: System, c: nat)
    requires ServerOk(s)
    ensures ServerOk(DoReadError(s, c))
  {
    if CanRead(s, c) {
      hide LoginNames, NoDuplicates;
      assert Segment(s.conns[c], s.log);
      assert c in s.srv.list;
    }
  }

  lemma EndKeepsServer(s: System, c: nat)
    requires ServerOk(s)
    ensures ServerOk(DoReadEnd(s, c))
  {
    if CanRead(s, c) {
      RemoveKeepsSync(s.srv, c);
      hide LoginNames, NoDuplicates;
      assert Segment(s.conns[c], s.log);
      forall d | d in s.srv.list || d in Without(s.srv.list, c)
        ensures d in Without(s.srv.list, c) <==> d in s.srv.list && d != c
      {
        WithoutMember(s.srv.list, c, d);
      }
      hide InSync;
      assert forall i :: 0 <= i < |Without(s.srv.list, c)| ==> Without(s.srv.list, c)[i] in Without(s.srv.list, c);
    }
  }

  lemma StdinKeepsServer(s: System, line: string)
    requires ServerOk(s)
    ensures ServerOk(DoStdin(s, line))
  {
    if s.srv.active && !s.crashed && line == "exit" {
      ExitKeepsSome(s.srv);
      hide ExitLoop, LoginNames, NoDuplicates, InSync;
      var list' := ExitLoop(s.srv, 0).list;
      forall i | 0 <= i < |list'| ensures list'[i] < |s.conns| {
        assert list'[i] in list';
      }
    }
  }

  /** The command of a running server: its list becomes the odd positions of the old one, and nothing else changes. */
  lemma StdinInRun(s: System, line: string)
    requires ServerOk(s) && s.srv.active && !s.crashed
    ensures var s' := DoStdin(s, line);
            line == "exit" ==>
              && s'.srv.list == OddPositions(s.srv.list) && s'.srv.waiting == (set c | c in OddPositions(s.srv.list))
              && s'.srv.names == s.srv.names && !s'.srv.active
              && s' == s.(srv := s'.srv)
    ensures line != "exit" ==> DoStdin(s, line) == s
  {
    ExitKeepsOddPositions(s.srv);
    ExitKeepsSome(s.srv);
    hide ServerOk, ExitLoop, OddPositions, InSync;
  }

  lemma ExitKeepsSome(st: ServerState<nat>)
    requires InSync(st)
    ensures var st' := ExitLoop(st, 0);
            InSync(st') && st'.names == st.names && forall c :: c in st'.list ==> c in st.list
  {
    assert [] + st.list == st.list;
    ExitLoopFrom(st, [], st.list);
    ExitLoopShrinks(st, 0);
    var st' := ExitLoop(st, 0);
    forall c | c in st'.list ensures c in st.list {
      assert c in st'.waiting;
    }
  }

  lemma ReadKeepsServer(s: System, c: nat, now: int, failing: set<nat>)
    requires ServerOk(s)
    ensures ServerOk(DoRead(s, c, now, failing))
  {
    if CanRead(s, c) && s.conns[c].taken < |s.conns[c].inbox| {
      ReadEffect(s, c, now, failing);
      ReadKeepsNames(s, c, now, failing);
      ReadKeepsSegments(s, c, now, failing);
      ReadKeepsOpen(s, c, now, failing);
      hide Broadcast, Reply, InSync, NoDuplicates, LoginNames, Segments, UpToDate, FaultFree, NamesMatch;
    }
  }

  lemma ReadKeepsNames(s: System, c: nat, now: int, failing: set<nat>)
    requires ServerOk(s) && CanRead(s, c) && s.conns[c].taken < |s.conns[c].inbox|
    ensures NamesMatch(DoRead(s, c, now, failing))
  {
    var request := s.conns[c].inbox[s.conns[c].taken];
    var reply := Reply(s.srv.names, request, now);
    assert (s.log + [reply])[..|s.log|] == s.log;
    hide Broadcast, Segments, UpToDate, FaultFree, Registry;
  }

  lemma ReadKeepsSegments(s: System, c: nat, now: int, failing: set<nat>)
    requires ServerOk(s) && CanRead(s, c) && s.conns[c].taken < |s.conns[c].inbox|
    ensures Segments(DoRead(s, c, now, failing)) && UpToDate(DoRead(s, c, now, failing))
  {
    ReadEffect(s, c, now, failing);
    var s' := DoRead(s, c, now, failing);
    var reply := Reply(s.srv.names, s.conns[c].inbox[s.conns[c].taken], now);
    assert s'.srv.list == s.srv.list;
    hide DoRead, Reply, NamesMatch, FaultFree, InSync;
    forall d | 0 <= d < |s'.conns|
      ensures Segment(s'.conns[d], s'.log)
      ensures !s'.crashed && d in s.srv.list && s'.conns[d].open ==>
                s'.conns[d].start + |s'.conns[d].sent| == |s'.log|
    {
      SegmentGrows(s.conns[d], s'.conns[d], s.log, reply);
    }
  }

  lemma SegmentGrows(before: Conn, after: Conn, log: seq<Instance>, reply: Instance)
    requires Segment(before, log) && after.start == before.start && after.accepted == before.accepted
    ensures after.sent == before.sent && (before.accepted || after.open) ==> Segment(after, log + [reply])
    ensures after.sent == before.sent + [reply] && before.accepted && before.start + |before.sent| == |log| ==>
              Segment(after, log + [reply])
  {
  }

  lemma ReadKeepsOpen(s: System, c: nat, now: int, failing: set<nat>)
    requires ServerOk(s) && CanRead(s, c) && s.conns[c].taken < |s.conns[c].inbox|
    ensures FaultFree(DoRead(s, c, now, failing)) && Registry(DoRead(s, c, now, failing))
  {
    ReadEffect(s, c, now, failing);
    hide Broadcast, Reply, NamesMatch, Segments, UpToDate, NoDuplicates;
    var s' := DoRead(s, c, now, failing);
    if !s'.faulty {
      assert forall d :: d in s.srv.list ==> d !in failing by {
        assert forall d :: d in s.srv.list ==> d in s.srv.waiting;
        assert forall d :: d in s.srv.waiting && d in failing ==> d in failing * s.srv.waiting;
      }
    }
  }

  lemma StepKeepsServer(s: System, step: Step)
    requires ServerOk(s)
    ensures ServerOk(Apply(s, step))
  {
    hide ServerOk, OnlyInboxes, DoAccept, DoRead, DoReadEnd, DoReadError, DoStdin, DoClient, DoDial, DoOutsider;
    match step
    case AcceptSocket(c) => AcceptKeepsServer(s, c);
    case ReadRequest(c, now, failing) => ReadKeepsServer(s, c, now, failing);
    case ReadEnd(c) => CloseKeepsServer(s, c);
    case ReadError(c) => CloseKeepsServer(s, c);
    case Stdin(line) => StdinKeepsServer(s, line);
    case OfClient(k, a) =>
      ClientsOnlyAddRequests(s, k, a);
      InboxesKeepServer(s, DoClient(s, k, a));
    case Dial =>
      DialAddsConnection(s);
      InboxesKeepServer(s, DoDial(s));
    case Outsider(c, request) =>
      OutsidersOnlyAddRequests(s, c, request);
      InboxesKeepServer(s, DoOutsider(s, c, request));
  }
}
