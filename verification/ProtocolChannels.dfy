/** The life of one connection on the server: from its accept to its removal, or to its failure. */
module ProtocolChannels {
  import opened ServerCore
  import opened Protocol
  import opened ProtocolInvariants

  predicate CanAccept(s: System, c: nat) {
    s.srv.active && !s.crashed && c < |s.conns| && !s.conns[c].accepted
  }

  predicate Accepted(s: System, c: nat) {
    c < |s.conns| && s.conns[c].accepted
  }

  /** Accepted once, and since removed from the registries or closed by a failure. */
  predicate Over(s: System, c: nat) {
    Accepted(s, c) && (c !in s.srv.list || !s.conns[c].open)
  }

  /** An accept starts the connection at the current end of the log, with nothing sent. */
  lemma AcceptStarts(s: System, c: nat)
    requires ServerOk(s) && CanAccept(s, c)
    ensures var s' := DoAccept(s, c);
            && Accepted(s', c) && !Over(s', c) && s'.log == s.log
            && s'.conns[c].start == |s.log| && s'.conns[c].sent == []
  {
    assert Segment(s.conns[c], s.log);
    hide NoDuplicates, LoginNames;
  }

  /** The start never moves, and what is over stays over, with nothing more sent. */
  lemma ReadKeepsLife(s: System, r: nat, now: int, failing: set<nat>, c: nat)
    requires ServerOk(s) && Accepted(s, c)
    ensures var s' := DoRead(s, r, now, failing);
            && Accepted(s', c) && s'.conns[c].start == s.conns[c].start && s'.srv.list == s.srv.list
            && (Over(s, c) || Over(s', c) ==> s'.conns[c].sent == s.conns[c].sent)
            && (Over(s, c) ==> Over(s', c))
  {
    if CanRead(s, r) && s.conns[r].taken < |s.conns[r].inbox| {
      ReadEffect(s, r, now, failing);
      assert DoRead(s, r, now, failing).srv.list == s.srv.list;
      hide DoRead, Reply, InSync, Segments, UpToDate, FaultFree, NamesMatch;
      assert c in s.srv.list || c !in s.srv.list;
    }
  }

  lemma StepKeepsLife(s: System, step: Step, c: nat)
    requires ServerOk(s) && Accepted(s, c)
    ensures var s' := Apply(s, step);
            && Accepted(s', c) && s'.conns[c].start == s.conns[c].start
            && (Over(s, c) || Over(s', c) ==> s'.conns[c].sent == s.conns[c].sent)
            && (Over(s, c) ==> Over(s', c))
  {
    match step
    case ReadRequest(r, now, failing) => ReadKeepsLife(s, r, now, failing, c);
    case OfClient(k, a) =>
      ClientsOnlyAddRequests(s, k, a);
      hide ServerOk, DoClient;
    case Outsider(r, request) =>
      OutsidersOnlyAddRequests(s, r, request);
      hide ServerOk, DoOutsider;
    case Dial => hide ServerOk;
    case AcceptSocket(r) => hide ServerOk;
    case ReadEnd(r) =>
      WithoutMember(s.srv.list, r, c);
      hide ServerOk;
    case ReadError(r) => hide ServerOk;
    case Stdin(line) =>
      ExitKeepsSome(s.srv);
      hide Segments, UpToDate, FaultFree, NamesMatch, ExitLoop, InSync;
  }

  /** Only a running server ends a connection. */
  lemma EndsWhileRunning(s: System, step: Step, c: nat)
    requires ServerOk(s) && Accepted(s, c) && !Over(s, c) && Over(Apply(s, step), c)
    ensures !s.crashed
  {
    match step
    case ReadRequest(r, now, failing) => hide ServerOk, Broadcast, Reply;
    case OfClient(k, a) =>
      ClientsOnlyAddRequests(s, k, a);
      hide ServerOk, DoClient;
    case Outsider(r, request) =>
      OutsidersOnlyAddRequests(s, r, request);
      hide ServerOk, DoOutsider;
    case _ => hide ServerOk, ExitLoop, Remove;
  }

  /** A connection that is not over has been sent everything since its accept. */
  lemma SentUpToDate(s: System, c: nat)
    requires ServerOk(s) && Accepted(s, c) && !Over(s, c) && !s.crashed
    ensures s.conns[c].start + |s.conns[c].sent| == |s.log|
  {
    hide Segments, FaultFree, NamesMatch, InSync;
  }
}
