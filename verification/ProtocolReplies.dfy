/** One reply for every request read, delivered to the connection that asked. */
module ProtocolReplies {
  import opened Messages
  import opened ServerCore
  import opened Protocol
  import opened ProtocolInvariants

  /** How many of the replies answer connection `c`. */
  function Count(asker: seq<nat>, c: nat): nat {
    if asker == [] then 0
    else Count(asker[..|asker| - 1], c) + (if asker[|asker| - 1] == c then 1 else 0)
  }

  /** What a reply has to do with its request and the log before it; a login fails exactly if the name is taken. */
  predicate Answers(log: seq<Instance>, request: Instance, reply: Instance) {
    match request
    case LoginRequest(_, from) =>
      if LoginIn(log, from) then
        reply.ErrorResponse? && reply.originator == SERVER_SENDER && reply.code == USER_NAME_IN_USE
      else IsLogin(reply, from)
    case MessageRequest(_, from, content) =>
      reply.MessageResponse? && reply.originator == from && reply.content == content
    case _ => reply.ErrorResponse? && reply.originator == UNKNOWN_SENDER && reply.code == MALFORMED_REQUEST_NO_TYPE
  }

  /** Log entry `j` answers the request its asker sent at that point of its own sequence. */
  predicate EntryOk(s: System, j: nat)
    requires j < |s.log| == |s.asker|
  {
    var c := s.asker[j];
    && c < |s.conns| && s.conns[c].accepted
    && Count(s.asker[..j], c) < |s.conns[c].inbox|
    && Answers(s.log[..j], s.conns[c].inbox[Count(s.asker[..j], c)], s.log[j])
    && s.conns[c].start <= j
    && (!s.faulty ==> j < s.conns[c].start + |s.conns[c].sent|)
  }

  /** Every request read has its entry, in the order it was read, and no entry is without a request. */
  ghost predicate Answered(s: System) {
    && |s.asker| == |s.log|
    && (forall c :: 0 <= c < |s.conns| ==> s.conns[c].taken == Count(s.asker, c))
    && (forall c :: |s.conns| <= c ==> Count(s.asker, c) == 0)
    && (forall j :: 0 <= j < |s.log| ==> EntryOk(s, j))
  }

  lemma ReplyAnswers(log: seq<Instance>, request: Instance, now: int)
    ensures Answers(log, request, Reply(LoginNames(log), request, now))
  {
    if request.LoginRequest? {
      LoginNamesAre(log, request.from);
    }
    hide LoginNames, LoginIn;
  }

  lemma InboxesKeepAnswered(s: System, s': System)
    requires Answered(s) && OnlyInboxes(s, s')
    ensures Answered(s')
  {
    hide Answers, Count;
    forall j | 0 <= j < |s'.log| ensures EntryOk(s', j) {
      assert EntryOk(s, j);
      CountBefore(s.asker, j);
    }
  }

  /** A request that has its reply is among those that were read. */
  lemma {:induction false} CountBefore(asker: seq<nat>, j: nat)
    requires j < |asker|
    ensures Count(asker[..j], asker[j]) < Count(asker, asker[j])
    decreases |asker|
  {
    var init := asker[..|asker| - 1];
    if j < |init| {
      CountBefore(init, j);
      assert init[..j] == asker[..j];
    }
  }

  /** What has been read of an inbox is in it. */
  lemma TakenIsWritten(s: System, c: nat)
    requires Answered(s) && c < |s.conns|
    ensures s.conns[c].taken <= |s.conns[c].inbox|
  {
    if s.conns[c].taken > 0 {
      var j := LastOf(s.asker, c);
      assert EntryOk(s, j);
    }
  }

  lemma {:induction false} LastOf(asker: seq<nat>, c: nat) returns (j: nat)
    requires Count(asker, c) > 0
    ensures j < |asker| && asker[j] == c && Count(asker[..j], c) + 1 == Count(asker, c)
    decreases |asker|
  {
    var n := |asker| - 1;
    if asker[n] == c {
      return n;
    }
    j := LastOf(asker[..n], c);
    assert asker[..n][..j] == asker[..j];
  }

  /** Steps that write nothing and read nothing. */
  predicate QuietServer(s: System, s': System) {
    && s'.log == s.log && s'.asker == s.asker && (s.faulty ==> s'.faulty) && |s'.conns| == |s.conns|
    && forall c :: 0 <= c < |s.conns| ==>
         && s'.conns[c].inbox == s.conns[c].inbox && s'.conns[c].taken == s.conns[c].taken
         && s'.conns[c].sent == s.conns[c].sent
         && (s.conns[c].accepted ==> s'.conns[c].accepted && s'.conns[c].start == s.conns[c].start)
  }

  lemma QuietKeepsAnswered(s: System, s': System)
    requires Answered(s) && QuietServer(s, s')
    ensures Answered(s')
  {
    hide Answers, Count;
    forall j | 0 <= j < |s'.log| ensures EntryOk(s', j) {
      assert EntryOk(s, j);
    }
  }

  lemma ReadKeepsAnswered(s: System, c: nat, now: int, failing: set<nat>)
    requires ServerOk(s) && Answered(s)
    ensures Answered(DoRead(s, c, now, failing))
  {
    hide DoRead, Broadcast, Reply, Answers, Count, InSync, NoDuplicates, NamesMatch, EntryOk, Segments, UpToDate, FaultFree;
    NothingToRead(s, c, now, failing);
    if CanRead(s, c) && s.conns[c].taken < |s.conns[c].inbox| {
      var s' := DoRead(s, c, now, failing);
      ReadEffect(s, c, now, failing);
      ReadShape(s, c, now, failing);
      CountGrows(s.asker, c);
      forall j | 0 <= j < |s'.log| ensures EntryOk(s', j) {
        if j < |s.log| {
          OldEntryStays(s, c, now, failing, j);
        } else {
          NewEntryOk(s, c, now, failing);
        }
      }
      forall d | 0 <= d < |s'.conns| ensures s'.conns[d].taken == Count(s'.asker, d) {
        assert d in s.srv.list || d !in s.srv.list;
      }
    }
  }

  lemma NothingToRead(s: System, c: nat, now: int, failing: set<nat>)
    requires ListedExist(s)
    ensures !(CanRead(s, c) && s.conns[c].taken < |s.conns[c].inbox|) ==> DoRead(s, c, now, failing) == s
  {
  }

  lemma OldEntryStays(s: System, c: nat, now: int, failing: set<nat>, j: nat)
    requires ServerOk(s) && Answered(s) && CanRead(s, c) && s.conns[c].taken < |s.conns[c].inbox| && j < |s.log|
    ensures var s' := DoRead(s, c, now, failing);
            |s'.log| == |s'.asker| && j < |s'.log| && EntryOk(s', j)
  {
    var s' := DoRead(s, c, now, failing);
    ReadEffect(s, c, now, failing);
    ReadShape(s, c, now, failing);
    hide DoRead, Reply, Answers, Count, InSync, NamesMatch, Segments, UpToDate, FaultFree;
    assert EntryOk(s, j);
    var d := s.asker[j];
    assert s'.asker[..j] == s.asker[..j] && s'.asker[j] == d && s'.log[j] == s.log[j] && s'.log[..j] == s.log[..j];
    assert d in s.srv.list || d !in s.srv.list;
    assert s'.conns[d].inbox == s.conns[d].inbox && |s.conns[d].sent| <= |s'.conns[d].sent|;
  }

  lemma NewEntryOk(s: System, c: nat, now: int, failing: set<nat>)
    requires ServerOk(s) && Answered(s) && CanRead(s, c) && s.conns[c].taken < |s.conns[c].inbox|
    ensures var s' := DoRead(s, c, now, failing);
            |s'.log| == |s'.asker| == |s.log| + 1 && EntryOk(s', |s.log|)
  {
    var s' := DoRead(s, c, now, failing);
    ReadEffect(s, c, now, failing);
    ReadShape(s, c, now, failing);
    AskerIsServed(s, c, now, failing);
    ReplyAnswers(s.log, s.conns[c].inbox[s.conns[c].taken], now);
    hide DoRead, Reply, Answers, Count, InSync, LoginNames, UpToDate, FaultFree;
    assert s'.asker[..|s.asker|] == s.asker && s'.log[..|s.log|] == s.log;
    assert Segment(s.conns[c], s.log);
  }

  lemma ReadShape(s: System, c: nat, now: int, failing: set<nat>)
    requires ServerOk(s) && CanRead(s, c) && s.conns[c].taken < |s.conns[c].inbox|
    ensures DoRead(s, c, now, failing).asker == s.asker + [c]
    ensures s.faulty ==> DoRead(s, c, now, failing).faulty
    ensures c in s.srv.list && s.conns[c].accepted
  {
    hide Broadcast, Reply, NamesAfter, NamesMatch, Segments, UpToDate, FaultFree;
  }

  /** Without faults the connection that asked is among those written to. */
  lemma AskerIsServed(s: System, c: nat, now: int, failing: set<nat>)
    requires ServerOk(s) && CanRead(s, c) && s.conns[c].taken < |s.conns[c].inbox|
    ensures var s' := DoRead(s, c, now, failing);
            !s'.faulty ==> |s.log| < s'.conns[c].start + |s'.conns[c].sent|
  {
    ReadShape(s, c, now, failing);
    ReadKeepsServer(s, c, now, failing);
    ReadEffect(s, c, now, failing);
    var s' := DoRead(s, c, now, failing);
    assert s'.srv.list == s.srv.list;
    hide DoRead, Reply, Segments, Registry, NamesMatch;
  }

  lemma CountGrows(asker: seq<nat>, c: nat)
    ensures forall d :: Count(asker + [c], d) == Count(asker, d) + (if d == c then 1 else 0)
  {
    assert (asker + [c])[..|asker|] == asker;
  }

  lemma StepKeepsAnswered(s: System, step: Step)
    requires ServerOk(s) && Answered(s)
    ensures Answered(Apply(s, step))
  {
    hide ServerOk, Answered, DoClient, DoRead, Remove, Accept, ExitLoop;
    match step
    case AcceptSocket(c) => QuietKeepsAnswered(s, DoAccept(s, c));
    case ReadRequest(c, now, failing) => ReadKeepsAnswered(s, c, now, failing);
    case ReadEnd(c) => QuietKeepsAnswered(s, DoReadEnd(s, c));
    case ReadError(c) => QuietKeepsAnswered(s, DoReadError(s, c));
    case Stdin(line) => QuietKeepsAnswered(s, DoStdin(s, line));
    case OfClient(k, a) =>
      ClientsOnlyAddRequests(s, k, a);
      InboxesKeepAnswered(s, DoClient(s, k, a));
    case Dial =>
      DialAddsConnection(s);
      InboxesKeepAnswered(s, DoDial(s));
    case Outsider(c, request) =>
      OutsidersOnlyAddRequests(s, c, request);
      InboxesKeepAnswered(s, DoOutsider(s, c, request));
  }
}
