/** What holds in every run of the chat system, for any number of clients and any interleaving. */
module ProtocolLaws {
  import opened Messages
  import opened ServerCore
  import opened ClientCore
  import opened Protocol
  import opened ProtocolInvariants
  import opened ProtocolClients
  import opened ProtocolChannels
  import opened ProtocolOwners
  import opened ProtocolReplies

  ghost predicate Inv(s: System) {
    ServerOk(s) && ClientsOk(s) && Causal(s) && Answered(s) && Owned(s)
  }

  /** The system after the steps. */
  function Run(clients: nat, steps: seq<Step>): (s: System)
    ensures Inv(s)
  {
    if steps == [] then
      StartOk(clients);
      Start(clients)
    else
      var before := Run(clients, steps[..|steps| - 1]);
      StepKeepsInv(before, steps[|steps| - 1]);
      Apply(before, steps[|steps| - 1])
  }

  lemma StartOk(clients: nat)
    ensures Inv(Start(clients))
  {
    var s := Start(clients);
    assert forall k :: 0 <= k < |s.clients| ==> s.clients[k] == FRESH;
  }

  lemma StepKeepsInv(s: System, step: Step)
    requires Inv(s)
    ensures Inv(Apply(s, step))
  {
    hide ServerOk, ClientsOk, Causal, Answered, Owned, Apply;
    StepKeepsServer(s, step);
    StepKeepsClients(s, step);
    StepKeepsCausal(s, step);
    StepKeepsAnswered(s, step);
    StepKeepsOwned(s, step);
  }

  // ----- safety

  /** Every message that the server read in the run came from a name it had accepted by then. */
  predicate GuardedRun(clients: nat, steps: seq<Step>) {
    steps == [] ||
    (GuardedRun(clients, steps[..|steps| - 1]) && Guarded(Run(clients, steps[..|steps| - 1]), steps[|steps| - 1]))
  }

  /** The log is causal exactly in the runs in which the check that the server lacks would always have passed. */
  lemma {:induction false} CausalExactly(clients: nat, steps: seq<Step>)
    ensures LogCausal(Run(clients, steps).log) <==> GuardedRun(clients, steps)
    decreases |steps|
  {
    RunUnfolds(clients, steps);
    hide Run, LogCausal, Guarded, Inv, Apply;
    if steps == [] {
      EmptyIsCausal(clients);
    } else {
      var (init, step) := (steps[..|steps| - 1], steps[|steps| - 1]);
      CausalExactly(clients, init);
      InvParts(Run(clients, init));
      StepCausalExactly(Run(clients, init), step);
    }
  }

  lemma EmptyIsCausal(clients: nat)
    ensures LogCausal(Start(clients).log)
  {
  }

  /** If only clients write requests, the check would always have passed: `onMsgSend` makes it in the server's place. */
  lemma {:induction false} ClientsGuardRun(clients: nat, steps: seq<Step>)
    ensures !Run(clients, steps).rogue ==> GuardedRun(clients, steps)
    decreases |steps|
  {
    RunUnfolds(clients, steps);
    hide Run, Guarded, Apply;
    if steps != [] && !Run(clients, steps).rogue {
      var (init, step) := (steps[..|steps| - 1], steps[|steps| - 1]);
      ClientsGuardRun(clients, init);
      RogueByStep(Run(clients, init), step);
      CausalInRun(clients, init);
      ClientsMakeGuarded(Run(clients, init), step);
    }
  }

  lemma CausalInRun(clients: nat, steps: seq<Step>)
    ensures ServerOk(Run(clients, steps)) && Causal(Run(clients, steps))
  {
    hide Run, ServerOk, Causal, ClientsOk, Answered, Owned;
  }

  /** A run is without foreign requests exactly if none of its steps is one. */
  lemma {:induction false} RogueExactly(clients: nat, steps: seq<Step>)
    ensures Run(clients, steps).rogue <==> exists i :: 0 <= i < |steps| && steps[i].Outsider?
    decreases |steps|
  {
    RunUnfolds(clients, steps);
    hide Run, Apply;
    if steps == [] {
      assert !Start(clients).rogue;
    } else {
      var (init, step) := (steps[..|steps| - 1], steps[|steps| - 1]);
      RogueExactly(clients, init);
      RogueByStep(Run(clients, init), step);
      assert forall i :: 0 <= i < |init| ==> steps[i] == init[i];
    }
  }

  lemma RogueByStep(s: System, step: Step)
    requires ListedExist(s)
    ensures Apply(s, step).rogue <==> s.rogue || step.Outsider?
  {
    hide Act, ExitLoop, Remove, Accept, ReaderConnects, SendDone, ReceivedBy, Broadcast, Reply;
  }

  /** As long as only clients write requests, a message's originator logged in before it, in the log. */
  lemma MessagesFollowLogins(clients: nat, steps: seq<Step>, j: nat)
    ensures var s := Run(clients, steps);
            !s.rogue && j < |s.log| && s.log[j].MessageResponse? ==>
              exists i :: 0 <= i < j && IsLogin(s.log[i], s.log[j].originator)
  {
    var s := Run(clients, steps);
    ClientsGuardRun(clients, steps);
    CausalExactly(clients, steps);
    hide Run, GuardedRun;
    if !s.rogue && j < |s.log| && s.log[j].MessageResponse? {
      assert LoginIn(s.log[..j], s.log[j].originator);
      var i :| 0 <= i < |s.log[..j]| && IsLogin(s.log[..j][i], s.log[j].originator);
      assert IsLogin(s.log[i], s.log[j].originator);
    }
  }

  /** The client guard is needed: one request from outside the clients breaks the rule. */
  lemma OutsiderBreaksCausality()
    ensures var s := Run(0, [Outsider(0, MessageRequest(0, "eve", "hi")), AcceptSocket(0), ReadRequest(0, 1, {})]);
            s.log == [MessageResponse(1, SERVER_SENDER, "eve", "hi")]
  {
    hide *;
    OutsiderSteps();
    var steps := [Outsider(0, MessageRequest(0, "eve", "hi")), AcceptSocket(0), ReadRequest(0, 1, {})];
    RunUnfolds(0, []);
    RunUnfolds(0, [steps[0]]);
    RunUnfolds(0, [steps[0], steps[1]]);
    RunUnfolds(0, steps);
    assert [steps[0]][..0] == [] && [steps[0], steps[1]][..1] == [steps[0]] && steps[..2] == [steps[0], steps[1]];
  }

  lemma RunUnfolds(clients: nat, steps: seq<Step>)
    ensures steps == [] ==> Run(clients, steps) == Start(clients)
    ensures steps != [] ==>
              && ListedExist(Run(clients, steps[..|steps| - 1]))
              && Run(clients, steps) == Apply(Run(clients, steps[..|steps| - 1]), steps[|steps| - 1])
  {
    hide Apply, Segments, UpToDate, FaultFree, NamesMatch, ClientsOk, Causal, Answered, Owned;
  }

  lemma OutsiderSteps()
    ensures var s0 := Start(0);
            && ListedExist(s0)
            && var s1 := Apply(s0, Outsider(0, MessageRequest(0, "eve", "hi")));
            && ListedExist(s1)
            && var s2 := Apply(s1, AcceptSocket(0));
            && ListedExist(s2)
            && Apply(s2, ReadRequest(0, 1, {})).log == [MessageResponse(1, SERVER_SENDER, "eve", "hi")]
  {
  }

  /** What a socket was sent is the piece of the log from its accept on; while it is listed, up to the end. */
  lemma SentIsLogSegment(clients: nat, steps: seq<Step>, c: nat)
    ensures var s := Run(clients, steps);
            c < |s.conns| ==>
              var conn := s.conns[c];
              && conn.start + |conn.sent| <= |s.log| && conn.sent == s.log[conn.start..conn.start + |conn.sent|]
              && (c in s.srv.list && conn.open && !s.crashed ==> conn.start + |conn.sent| == |s.log|)
  {
    var s := Run(clients, steps);
    hide Run, ClientsOk, Answered, Causal, Owned;
    if c < |s.conns| {
      assert Segment(s.conns[c], s.log);
    }
  }

  /** In a run without foreign requests each message that a socket was sent stands in the log behind a login. */
  lemma SentFollowsLogins(clients: nat, steps: seq<Step>, c: nat, i: nat) returns (n: nat)
    requires forall k :: 0 <= k < |steps| ==> !steps[k].Outsider?
    requires var s := Run(clients, steps);
             c < |s.conns| && i < |s.conns[c].sent| && s.conns[c].sent[i].MessageResponse?
    ensures var s := Run(clients, steps);
            n < |s.log| && s.log[n] == s.conns[c].sent[i] && LoginIn(s.log[..n], s.conns[c].sent[i].originator)
  {
    hide Run, Inv, GuardedRun, LoginIn;
    var s := Run(clients, steps);
    n := s.conns[c].start + i;
    SentIsLogSegment(clients, steps, c);
    RogueExactly(clients, steps);
    ClientsGuardRun(clients, steps);
    CausalExactly(clients, steps);
  }

  /** From its accept on, and for ever, a connection starts at the end that the log had then. */
  lemma {:induction false} StartIsAccept(clients: nat, pre: seq<Step>, c: nat, more: seq<Step>)
    requires CanAccept(Run(clients, pre), c)
    ensures var s := Run(clients, pre + [AcceptSocket(c)] + more);
            Accepted(s, c) && s.conns[c].start == |Run(clients, pre).log|
    decreases |more|
  {
    hide *;
    var steps := pre + [AcceptSocket(c)];
    if more == [] {
      assert steps + more == steps && pre + [] + [AcceptSocket(c)] == steps && pre + [] == pre;
      RunAppend(clients, pre, [], AcceptSocket(c));
      InvParts(Run(clients, pre));
      AcceptStarts(Run(clients, pre), c);
      AcceptIsStep(Run(clients, pre), c);
    } else {
      var (init, step) := (more[..|more| - 1], more[|more| - 1]);
      assert steps + init + [step] == steps + more;
      StartIsAccept(clients, pre, c, init);
      RunAppend(clients, steps, init, step);
      InvParts(Run(clients, steps + init));
      StepKeepsLife(Run(clients, steps + init), step, c);
    }
  }

  lemma AcceptIsStep(s: System, c: nat)
    requires ServerOk(s)
    ensures ListedExist(s) && Apply(s, AcceptSocket(c)) == DoAccept(s, c)
  {
  }

  /** Once a connection is removed or closed, no continuation of the run sends it anything. */
  lemma {:induction false} OverForGood(clients: nat, steps: seq<Step>, c: nat, more: seq<Step>)
    requires Over(Run(clients, steps), c)
    ensures var (s, s') := (Run(clients, steps), Run(clients, steps + more));
            Over(s', c) && c < |s.conns| && c < |s'.conns| && s'.conns[c].sent == s.conns[c].sent
    decreases |more|
  {
    OverExists(Run(clients, steps), c);
    hide *;
    if more == [] {
      assert steps + more == steps;
    } else {
      var (init, step) := (more[..|more| - 1], more[|more| - 1]);
      assert steps + init + [step] == steps + more;
      OverForGood(clients, steps, c, init);
      RunAppend(clients, steps, init, step);
      InvParts(Run(clients, steps + init));
      OverExists(Run(clients, steps + init), c);
      StepKeepsLife(Run(clients, steps + init), step, c);
      OverExists(Run(clients, steps + more), c);
    }
  }

  lemma OverExists(s: System, c: nat)
    ensures Over(s, c) ==> Accepted(s, c)
    ensures Accepted(s, c) ==> c < |s.conns|
  {
  }

  /**
    The whole life of a connection: accepted after `pre`, ended by `step`, whether by the end of the
    stream, by "exit" or by a failure. What it was ever sent is the log from the one to the other.
   */
  lemma SentIsLifeSegment(clients: nat, pre: seq<Step>, c: nat, mid: seq<Step>, step: Step, post: seq<Step>)
    requires CanAccept(Run(clients, pre), c)
    requires var life := pre + [AcceptSocket(c)] + mid;
             !Over(Run(clients, life), c) && Over(Run(clients, life + [step]), c)
    ensures var life := pre + [AcceptSocket(c)] + mid;
            var (from, to) := (|Run(clients, pre).log|, |Run(clients, life).log|);
            var s := Run(clients, life + [step] + post);
            && c < |s.conns| && from <= to <= |s.log|
            && s.conns[c].sent == s.log[from..to]
  {
    var life := pre + [AcceptSocket(c)] + mid;
    var s := Run(clients, life + [step] + post);
    hide *;
    StartIsAccept(clients, pre, c, mid);
    assert life + [step] + post == pre + [AcceptSocket(c)] + (mid + [step] + post);
    StartIsAccept(clients, pre, c, mid + [step] + post);
    assert life + [] == life;
    RunAppend(clients, life, [], step);
    InvParts(Run(clients, life));
    EndsWhileRunning(Run(clients, life), step, c);
    SentUpToDate(Run(clients, life), c);
    StepKeepsLife(Run(clients, life), step, c);
    OverForGood(clients, life + [step], c, post);
    OverExists(Run(clients, life), c);
    OverExists(s, c);
    SentIsLogSegment(clients, life + [step] + post, c);
  }

  /** Two sockets that were both sent a reply have it at the same place relative to any other common one. */
  lemma CommonRepliesAgree(clients: nat, steps: seq<Step>, c: nat, d: nat, j: nat)
    ensures var s := Run(clients, steps);
            c < |s.conns| && d < |s.conns| &&
            s.conns[c].start <= j < s.conns[c].start + |s.conns[c].sent| &&
            s.conns[d].start <= j < s.conns[d].start + |s.conns[d].sent| ==>
              j < |s.log| && s.conns[c].sent[j - s.conns[c].start] == s.conns[d].sent[j - s.conns[d].start] == s.log[j]
  {
    SentIsLogSegment(clients, steps, c);
    SentIsLogSegment(clients, steps, d);
    hide Run, Inv;
  }

  /** The accepted names are the log's login responses, and none is ever accepted twice. */
  lemma NamesAreLogins(clients: nat, steps: seq<Step>)
    ensures var s := Run(clients, steps);
            s.srv.names == LoginNames(s.log) && NoDuplicates(s.srv.names) && LoginsUnique(s.log)
  {
    var s := Run(clients, steps);
    DistinctNamesUniqueLogins(s.log);
    hide Run, LoginNames, NoDuplicates, LoginsUnique;
  }

  /** The two registries agree in every reachable state. */
  lemma RegistriesAgree(clients: nat, steps: seq<Step>)
    ensures InSync(Run(clients, steps).srv)
  {
  }

  /** After "exit" the sockets at odd positions are left in both registries; the names and all connections stay as they are. */
  lemma ExitInRun(clients: nat, steps: seq<Step>)
    requires Run(clients, steps).srv.active && !Run(clients, steps).crashed
    ensures var (s, s') := (Run(clients, steps), Run(clients, steps + [Stdin("exit")]));
            && s'.srv.list == OddPositions(s.srv.list) && s'.srv.waiting == (set c | c in OddPositions(s.srv.list))
            && !s'.srv.active && s'.srv.names == s.srv.names && s'.conns == s.conns && s'.log == s.log
  {
    hide Run, Inv, OddPositions;
    assert steps + [] == steps;
    RunAppend(clients, steps, [], Stdin("exit"));
    InvParts(Run(clients, steps));
    StdinInRun(Run(clients, steps), "exit");
  }

  /** If no `recv` or `write` ever failed, every listed socket is open and no broadcast ever threw. */
  lemma NoFaultNoThrow(clients: nat, steps: seq<Step>, c: nat)
    ensures var s := Run(clients, steps);
            !s.faulty ==> !s.crashed && (c in s.srv.list ==> c < |s.conns| && s.conns[c].open)
  {
    var s := Run(clients, steps);
    hide Run, ClientsOk, Answered, Causal, Owned;
    if c in s.srv.list {
      var i :| 0 <= i < |s.srv.list| && s.srv.list[i] == c;
      assert s.srv.list[i] < |s.conns|;
    }
  }

  /** Replies and requests read are one to one, and without faults the asker is sent its reply. */
  lemma OneReplyPerRequest(clients: nat, steps: seq<Step>, j: nat)
    ensures var s := Run(clients, steps);
            && |s.asker| == |s.log|
            && (forall c :: 0 <= c < |s.conns| ==> s.conns[c].taken == Count(s.asker, c))
            && (j < |s.log| ==>
                  && s.asker[j] < |s.conns|
                  && var conn := s.conns[s.asker[j]];
                  && Count(s.asker[..j], s.asker[j]) < |conn.inbox|
                  && Answers(s.log[..j], conn.inbox[Count(s.asker[..j], s.asker[j])], s.log[j])
                  && (!s.faulty ==> conn.start <= j < conn.start + |conn.sent| && conn.sent[j - conn.start] == s.log[j]))
  {
    var s := Run(clients, steps);
    hide Run, ClientsOk, Causal, Count, Answers;
    if j < |s.log| {
      assert EntryOk(s, j);
      assert Segment(s.conns[s.asker[j]], s.log);
    }
  }

  // ----- what clients see

  /**
    A client shows one contiguous piece of the log that starts with the first login response bearing its name, and while it
    is logged in the piece reaches to the reply in hand; its name is then in the server's list.
   */
  lemma DisplayIsLogSegment(clients: nat, steps: seq<Step>, k: nat)
    ensures var s := Run(clients, steps);
            k < |s.clients| ==>
              var c := s.clients[k];
              && (c.shown != [] ==>
                    c.conn.Some? && c.conn.value < |s.conns| &&
                    var from := s.conns[c.conn.value].start + FirstLogin(ReceivedBy(s, c), c.user);
                    from + |c.shown| <= |s.log| && c.shown == s.log[from..from + |c.shown|] && IsLogin(c.shown[0], c.user))
              && (c.state.IsLoggedIn? ==>
                    && c.user in s.srv.names
                    && FirstLogin(ReceivedBy(s, c), c.user) + |c.shown| == DoneCount(c))
  {
    var s := Run(clients, steps);
    hide *;
    InvParts(s);
    if k < |s.clients| {
      ShownIsSegment(s, s.clients[k]);
      LoggedInIsNamed(s, s.clients[k]);
    }
  }

  lemma InvParts(s: System)
    requires Inv(s)
    ensures ServerOk(s)
    ensures forall k :: 0 <= k < |s.clients| ==>
              && (s.clients[k].conn.Some? ==> s.clients[k].conn.value < |s.conns|)
              && ClientOk(s.clients[k], ReceivedBy(s, s.clients[k]))
  {
    hide ServerOk, Causal, Answered, ClientOk, ReceivedBy;
  }

  lemma ShownIsSegment(s: System, c: Client)
    requires ServerOk(s) && ClientOk(c, ReceivedBy(s, c)) && (c.conn.Some? ==> c.conn.value < |s.conns|)
    ensures c.shown != [] ==>
              c.conn.Some? && c.conn.value < |s.conns| &&
              var from := s.conns[c.conn.value].start + FirstLogin(ReceivedBy(s, c), c.user);
              from + |c.shown| <= |s.log| && c.shown == s.log[from..from + |c.shown|] && IsLogin(c.shown[0], c.user)
  {
    hide Registry, UpToDate, FaultFree, NamesMatch;
    if c.shown != [] {
      var f := FirstLogin(ReceivedBy(s, c), c.user);
      assert f < CheckedCount(c);
      var conn := s.conns[c.conn.value];
      assert Segment(conn, s.log);
      assert c.shown[0] == conn.sent[f];
      SliceOfSlice(s.log, conn.start, |conn.sent|, f, |c.shown|);
    }
  }

  lemma SliceOfSlice(log: seq<Instance>, start: nat, n: nat, f: nat, m: nat)
    requires start + n <= |log| && f + m <= n
    ensures log[start..start + n][f..f + m] == log[start + f..start + f + m]
  {
    var (a, b) := (log[start..start + n][f..f + m], log[start + f..start + f + m]);
    assert |a| == |b| == m && forall i :: 0 <= i < m ==> a[i] == b[i];
  }

  lemma LoggedInIsNamed(s: System, c: Client)
    requires ServerOk(s) && ClientOk(c, ReceivedBy(s, c)) && (c.conn.Some? ==> c.conn.value < |s.conns|)
    ensures c.state.IsLoggedIn? ==>
              c.user in s.srv.names && FirstLogin(ReceivedBy(s, c), c.user) + |c.shown| == DoneCount(c)
  {
    if c.state.IsLoggedIn? {
      LoggedInIsLogged(s, c);
      LoginNamesAre(s.log, c.user);
      hide Registry, UpToDate, FaultFree, Segments, LoginNames, NoDuplicates;
    }
  }

  lemma {:induction false} RunAppend(clients: nat, steps: seq<Step>, more: seq<Step>, step: Step)
    ensures Run(clients, steps + more + [step]) == Apply(Run(clients, steps + more), step)
  {
    var all := steps + more + [step];
    assert all[..|all| - 1] == steps + more && all[|all| - 1] == step;
  }

  /**
    Once line 126 or 110 has overwritten the logged-in state, no continuation of the run, whatever the
    others do, logs the client in again or shows it another reply.
   */
  lemma {:induction false} OverwriteIsForever(clients: nat, steps: seq<Step>, k: nat, more: seq<Step>)
    requires k < |Run(clients, steps).clients|
    requires LockedOut(Run(clients, steps).clients[k], ReceivedBy(Run(clients, steps), Run(clients, steps).clients[k]))
    ensures var (s, s') := (Run(clients, steps), Run(clients, steps + more));
            && |s'.clients| == |s.clients|
            && LockedOut(s'.clients[k], ReceivedBy(s', s'.clients[k]))
            && s'.clients[k].shown == s.clients[k].shown && s'.clients[k].user == s.clients[k].user
    decreases |more|
  {
    hide *;
    if more == [] {
      assert steps + more == steps;
    } else {
      var (init, step) := (more[..|more| - 1], more[|more| - 1]);
      assert steps + init + [step] == steps + more;
      OverwriteIsForever(clients, steps, k, init);
      RunAppend(clients, steps, init, step);
      StepKeepsLockedOut(Run(clients, steps + init), step, k);
    }
  }

  /** The question of the lock-out has been settled for client `k`: its `login` is over. */
  predicate LoginOver(s: System, k: nat) {
    k < |s.clients| && s.clients[k].pc.Outside? && !s.clients[k].reader.NotStarted?
  }

  predicate IsLockedOut(s: System, k: nat)
    requires k < |s.clients|
  {
    LockedOut(s.clients[k], ReceivedBy(s, s.clients[k]))
  }

  /** Whether a login response bearing the client's name is among the replies it has checked. */
  predicate NamedLoginChecked(s: System, k: nat)
    requires k < |s.clients|
  {
    FirstLogin(ReceivedBy(s, s.clients[k]), s.clients[k].user) < CheckedCount(s.clients[k])
  }

  /** After `login` nothing that anyone does changes whether the client is locked out. */
  lemma {:induction false} LockOutIsFinal(clients: nat, steps: seq<Step>, k: nat, more: seq<Step>)
    requires LoginOver(Run(clients, steps), k)
    ensures var (s, s') := (Run(clients, steps), Run(clients, steps + more));
            && LoginOver(s', k) && k < |s.clients| && k < |s'.clients|
            && (IsLockedOut(s', k) <==> IsLockedOut(s, k)) && s'.clients[k].user == s.clients[k].user
    decreases |more|
  {
    LoginOverExists(Run(clients, steps), k);
    hide *;
    if more == [] {
      assert steps + more == steps;
    } else {
      var (init, step) := (more[..|more| - 1], more[|more| - 1]);
      assert steps + init + [step] == steps + more;
      LockOutIsFinal(clients, steps, k, init);
      RunAppend(clients, steps, init, step);
      StepKeepsSettled(Run(clients, steps + init), step, k);
    }
  }

  lemma LoginOverExists(s: System, k: nat)
    ensures LoginOver(s, k) ==> k < |s.clients|
  {
  }

  /**
    In every run and after every continuation: a client is locked out exactly if a login response bearing its
    name had been checked when line 126 ran, and otherwise it is logged in exactly from when one is checked.
   */
  lemma LoginDecides(clients: nat, steps: seq<Step>, k: nat, more: seq<Step>)
    requires var s := Run(clients, steps);
             k < |s.clients| && s.clients[k].pc.At126? && !s.clients[k].stopped
    ensures var (s, s') := (Run(clients, steps), Run(clients, steps + [OfClient(k, FinishLogin)] + more));
            && k < |s'.clients| && s'.clients[k].user == s.clients[k].user
            && (IsLockedOut(s', k) <==> NamedLoginChecked(s, k))
            && (s'.clients[k].state.IsLoggedIn? <==> NamedLoginChecked(s', k) && !NamedLoginChecked(s, k))
  {
    hide *;
    var finish := OfClient(k, FinishLogin);
    assert steps + [] == steps;
    RunAppend(clients, steps, [], finish);
    FinishDecides(Run(clients, steps), k);
    LockOutIsFinal(clients, steps + [finish], k, more);
    LoggedInExactly(Run(clients, steps + [finish] + more), k);
  }

  lemma FinishDecides(s: System, k: nat)
    requires Inv(s) && k < |s.clients| && s.clients[k].pc.At126? && !s.clients[k].stopped
    ensures ListedExist(s)
    ensures var s' := Apply(s, OfClient(k, FinishLogin));
            && LoginOver(s', k) && k < |s'.clients| && s'.clients[k].user == s.clients[k].user
            && (IsLockedOut(s', k) <==> NamedLoginChecked(s, k))
  {
    InvParts(s);
    InvClients(s);
    hide Inv, ServerOk, ClientsOk, DisplayOk, FirstLogin;
    assert Act(s.clients[k], FinishLogin, ReceivedBy(s, s.clients[k])) == LoginFinish(s.clients[k]);
  }

  lemma LoggedInExactly(s: System, k: nat)
    requires Inv(s) && k < |s.clients|
    ensures s.clients[k].state.IsLoggedIn? <==> NamedLoginChecked(s, k) && !IsLockedOut(s, k)
  {
    InvParts(s);
    hide Inv, ServerOk, FirstLogin;
    assert ClientOk(s.clients[k], ReceivedBy(s, s.clients[k]));
  }

  lemma StepKeepsSettled(s: System, step: Step, k: nat)
    requires Inv(s) && LoginOver(s, k)
    ensures ListedExist(s) && k < |s.clients|
    ensures var s' := Apply(s, step);
            && LoginOver(s', k) && k < |s'.clients|
            && (IsLockedOut(s', k) <==> IsLockedOut(s, k)) && s'.clients[k].user == s.clients[k].user
  {
    InvParts(s);
    InvClients(s);
    hide Inv, ServerOk, ClientsOk, ClientOk, Apply, ChannelsGrow, LockedOut, ReceivedBy;
    if step.OfClient? && step.k == k {
      OwnStepKeepsSettled(s, k, step.action);
    } else {
      StepGrowsChannels(s, step);
      OtherClientsStay(s, step, k);
      GrowthKeepsClient(s, Apply(s, step), s.clients[k]);
    }
  }

  lemma OwnStepKeepsSettled(s: System, k: nat, a: Action)
    requires ServerOk(s) && ListedExist(s) && ClientsOk(s) && LoginOver(s, k)
    ensures var s' := Apply(s, OfClient(k, a));
            && LoginOver(s', k) && k < |s'.clients| && k < |s.clients|
            && (IsLockedOut(s', k) <==> IsLockedOut(s, k)) && s'.clients[k].user == s.clients[k].user
  {
    var c := s.clients[k];
    SegmentLoginsUnique(s, c);
    LockOutIsSettled(c, a, ReceivedBy(s, c));
    ActKeepsConn(c, a, ReceivedBy(s, c));
    hide ServerOk, LoginsUnique, FirstLogin, DisplayOk;
    if a.OpenSocket? {
      assert c.reader.Connecting? ==> c.conn.None?;
    } else {
      assert DoClient(s, k, a).clients[k] == Act(c, a, ReceivedBy(s, c));
      hide LockedOut;
    }
    hide Act, SendDone;
  }

  lemma StepKeepsLockedOut(s: System, step: Step, k: nat)
    requires Inv(s) && k < |s.clients| && LockedOut(s.clients[k], ReceivedBy(s, s.clients[k]))
    ensures var s' := Apply(s, step);
            && |s'.clients| == |s.clients|
            && LockedOut(s'.clients[k], ReceivedBy(s', s'.clients[k]))
            && s'.clients[k].shown == s.clients[k].shown && s'.clients[k].user == s.clients[k].user
  {
    hide *;
    InvParts(s);
    InvClients(s);
    StepGrowsChannels(s, step);
    if step.OfClient? && step.k == k {
      OwnStepKeepsLockedOut(s, k, step.action);
    } else {
      OtherClientsStay(s, step, k);
      GrowthKeepsClient(s, Apply(s, step), s.clients[k]);
    }
  }

  lemma InvClients(s: System)
    requires Inv(s)
    ensures ListedExist(s) && ClientsOk(s)
  {
    hide ClientsOk, Segments, UpToDate, FaultFree, NamesMatch, Causal, Answered, Owned;
  }

  lemma OtherClientsStay(s: System, step: Step, k: nat)
    requires ServerOk(s) && ClientsOk(s) && k < |s.clients| && !(step.OfClient? && step.k == k)
    ensures |Apply(s, step).clients| == |s.clients| && Apply(s, step).clients[k] == s.clients[k]
  {
    StepGrowsChannels(s, step);
    if step.OfClient? && step.k < |s.clients| {
      ActingClient(s, step.k, step.action);
    }
    hide ServerOk, ClientsOk, ReceivedBy, ClientOk, DoRead, DoReadEnd, DoReadError, DoStdin, DoAccept, DoOutsider;
  }

  lemma OwnStepKeepsLockedOut(s: System, k: nat, a: Action)
    requires ServerOk(s) && ListedExist(s) && ClientsOk(s)
    requires k < |s.clients| && LockedOut(s.clients[k], ReceivedBy(s, s.clients[k]))
    ensures var s' := Apply(s, OfClient(k, a));
            && |s'.clients| == |s.clients|
            && LockedOut(s'.clients[k], ReceivedBy(s', s'.clients[k]))
            && s'.clients[k].shown == s.clients[k].shown && s'.clients[k].user == s.clients[k].user
  {
    var c := s.clients[k];
    SegmentLoginsUnique(s, c);
    LockedOutIsRunning(c, ReceivedBy(s, c));
    LockedOutForGood(c, a, ReceivedBy(s, c));
    ActKeepsConn(c, a, ReceivedBy(s, c));
    hide ServerOk, ClientOk, LockedOut, LoginsUnique;
    if !a.OpenSocket? {
      assert DoClient(s, k, a).clients[k] == Act(c, a, ReceivedBy(s, c));
    }
    hide Act, SendDone;
  }

  lemma LockedOutIsRunning(c: Client, sent: seq<Instance>)
    requires ClientOk(c, sent) && LockedOut(c, sent)
    ensures c.reader.Running? && c.conn.Some?
  {
  }
}
