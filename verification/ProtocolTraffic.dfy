/** What passes through the channels: who stamps it, that it is not empty, and in which order. */
module ProtocolTraffic {
  import opened Messages
  import opened ServerCore
  import opened ClientCore
  import opened Protocol
  import opened ProtocolInvariants
  import opened ProtocolClients
  import opened ProtocolOwners
  import opened ProtocolReplies
  import opened ProtocolFaults
  import opened ProtocolLaws

  // ----- stamps

  /** Each reply carries the server's time of answering and the server's name; a refusal says why. */
  lemma EntryStamped(clients: nat, steps: seq<Step>, c: nat, now: int, failing: set<nat>)
    requires Pending(Run(clients, steps), c)
    ensures var (s, s') := (Run(clients, steps), Run(clients, steps + [ReadRequest(c, now, failing)]));
            var request := s.conns[c].inbox[s.conns[c].taken];
            && |s'.log| == |s.log| + 1 && s.log <= s'.log
            && var e := s'.log[|s.log|];
            && e.time == now && e.from == SERVER_SENDER
            && (request.LoginRequest? && LoginIn(s.log, request.from) ==> e.ErrorResponse? && e.text == IN_USE_TEXT)
  {
    hide Run, Inv;
    assert steps + [] == steps;
    RunAppend(clients, steps, [], ReadRequest(c, now, failing));
    InvParts(Run(clients, steps));
    StampOfRead(Run(clients, steps), c, now, failing);
  }

  lemma StampOfRead(s: System, c: nat, now: int, failing: set<nat>)
    requires ServerOk(s) && Pending(s, c)
    ensures var s' := Apply(s, ReadRequest(c, now, failing));
            var request := s.conns[c].inbox[s.conns[c].taken];
            && |s'.log| == |s.log| + 1 && s.log <= s'.log
            && var e := s'.log[|s.log|];
            && e.time == now && e.from == SERVER_SENDER
            && (request.LoginRequest? && LoginIn(s.log, request.from) ==> e.ErrorResponse? && e.text == IN_USE_TEXT)
  {
    var request := s.conns[c].inbox[s.conns[c].taken];
    LoginNamesAre(s.log, request.from);
    hide Broadcast, LoginNames, LoginIn, InSync, Segments, UpToDate, FaultFree;
  }

  // ----- no empty messages

  predicate NoneEmpty(requests: seq<Instance>) {
    forall i :: 0 <= i < |requests| && requests[i].MessageRequest? ==> requests[i].content != []
  }

  /** While only clients write, nobody is ever sent an empty message, and none is on its way. */
  lemma NoEmptyMessages(clients: nat, steps: seq<Step>)
    ensures var s := Run(clients, steps);
            !s.rogue ==>
              && (forall k :: 0 <= k < |s.clients| ==> NoneEmpty(s.clients[k].pending))
              && (forall c :: 0 <= c < |s.conns| ==> NoneEmpty(s.conns[c].inbox))
              && (forall j :: 0 <= j < |s.log| && s.log[j].MessageResponse? ==> s.log[j].content != [])
  {
    var s := Run(clients, steps);
    InvTraffic(s);
    hide Run, Inv, Answered, ServerOk, ClientsOk, SignedBy;
    if !s.rogue {
      forall k | 0 <= k < |s.clients| ensures NoneEmpty(s.clients[k].pending) {
        SignedNotEmpty(s.clients[k].pending, s.clients[k].user);
      }
      forall c | 0 <= c < |s.conns| ensures NoneEmpty(s.conns[c].inbox) {
        if s.conns[c].inbox != [] {
          var k: nat :| Owns(s, k, c);
          SignedNotEmpty(s.conns[c].inbox, s.clients[k].user);
        }
      }
      forall j | 0 <= j < |s.log| && s.log[j].MessageResponse? ensures s.log[j].content != [] {
        RequestOfMessage(s, j);
        var c := s.asker[j];
        var k: nat :| Owns(s, k, c);
        SignedNotEmpty(s.conns[c].inbox, s.clients[k].user);
        assert s.conns[c].inbox[Count(s.asker[..j], c)].content != [];
      }
    }
  }

  lemma InvTraffic(s: System)
    requires Inv(s)
    ensures Owned(s) && Answered(s) && ServerOk(s) && ClientsOk(s)
  {
    hide ServerOk, ClientsOk, Causal, Owned, Answered;
  }

  lemma SignedNotEmpty(requests: seq<Instance>, user: string)
    requires SignedBy(requests, user)
    ensures NoneEmpty(requests)
  {
  }

  lemma RequestOfMessage(s: System, j: nat)
    requires Answered(s) && j < |s.log| && s.log[j].MessageResponse?
    ensures |s.asker| == |s.log|
    ensures var c := s.asker[j];
            && c < |s.conns| && Count(s.asker[..j], c) < |s.conns[c].inbox|
            && var request := s.conns[c].inbox[Count(s.asker[..j], c)];
            request.MessageRequest? && request.content == s.log[j].content
  {
    assert EntryOk(s, j);
    hide Count, LoginIn;
  }

  // ----- order

  /** Every request that client `k` made in the run, in the order it made them. */
  ghost function Queued(clients: nat, steps: seq<Step>, k: nat): seq<Instance> {
    if steps == [] then []
    else
      var (init, step) := (steps[..|steps| - 1], steps[|steps| - 1]);
      Queued(clients, init, k) + Made(Run(clients, init), Run(clients, steps), step, k)
  }

  /** What one step adds to the requests of client `k`. */
  function Made(s: System, s': System, step: Step, k: nat): seq<Instance> {
    if step.OfClient? && step.k == k && (step.action.SendLogin? || step.action.Type?)
       && k < |s.clients| && k < |s'.clients| && |s.clients[k].pending| <= |s'.clients[k].pending|
    then s'.clients[k].pending[|s.clients[k].pending|..]
    else []
  }

  /** What client `k` has written, and after it what it has still to write. */
  function Carried(s: System, k: nat): seq<Instance>
    requires k < |s.clients|
  {
    WrittenBy(s, k) + s.clients[k].pending
  }

  function WrittenBy(s: System, k: nat): seq<Instance>
    requires k < |s.clients|
  {
    if s.clients[k].conn.Some? && s.clients[k].conn.value < |s.conns| then s.conns[s.clients[k].conn.value].inbox else []
  }

  /** What a sequence is without the element at `i`, if it has one there. */
  function Dropped<T>(a: seq<T>, i: nat): seq<T> {
    if i < |a| then a[..i] + a[i + 1..] else a
  }

  /** A client's own step: a new request goes to the end, and a failed send loses the first unsent one. */
  lemma ActCarries(c: Client, a: Action, sent: seq<Instance>)
    requires PhasesOk(c, sent)
    ensures var c' := Act(c, a, sent);
            && (a.SendLogin? || a.Type? ==> c.pending <= c'.pending)
            && (a.RunSendTask? || a.FailSendTask? ==> c'.pending == c.pending || c'.pending == Dropped(c.pending, 0))
            && (!(a.SendLogin? || a.Type? || a.RunSendTask? || a.FailSendTask?) ==> c'.pending == c.pending)
  {
  }

  lemma DropAfter<T>(a: seq<T>, b: seq<T>)
    ensures a + Dropped(b, 0) == if b == [] then a + b else Dropped(a + b, |a|)
  {
  }

  lemma NothingMore<T>(a: seq<T>)
    ensures a + [] == a
  {
  }

  /** A request that is written moves from the one part to the other. */
  lemma WritingCarries(s: System, k: nat)
    requires k < |s.clients| && !s.clients[k].stopped && SendReady(s.clients[k])
    requires s.clients[k].conn.Some? && s.clients[k].conn.value < |s.conns| && s.clients[k].reader.Running?
    ensures var s' := DoClient(s, k, RunSendTask);
            |s'.clients| == |s.clients| && Carried(s', k) == Carried(s, k)
  {
    var (c, s') := (s.clients[k], DoClient(s, k, RunSendTask));
    assert WrittenBy(s', k) == WrittenBy(s, k) + [c.pending[0]];
    assert c.pending == [c.pending[0]] + c.pending[1..];
  }

  lemma ConnectingCarries(s: System, k: nat, conn: nat)
    requires k < |s.clients| && (s.clients[k].reader.Connecting? ==> s.clients[k].conn.None?)
    ensures var s' := DoClient(s, k, OpenSocket(conn));
            |s'.clients| == |s.clients| && Carried(s', k) == Carried(s, k)
  {
  }

  /** Every other step leaves what is written, and changes the queue as it does. */
  lemma ActingCarries(s: System, k: nat, a: Action)
    requires k < |s.clients| && !a.OpenSocket?
    requires !(a.RunSendTask? && !s.clients[k].stopped && SendReady(s.clients[k]) && s.clients[k].conn.Some?
               && s.clients[k].conn.value < |s.conns|)
    ensures var (c, s') := (s.clients[k], DoClient(s, k, a));
            && |s'.clients| == |s.clients| && s'.clients[k] == Act(c, a, ReceivedBy(s, c))
            && WrittenBy(s', k) == WrittenBy(s, k)
  {
    ActKeepsConn(s.clients[k], a, ReceivedBy(s, s.clients[k]));
    hide Act, ReceivedBy;
  }

  lemma OwnStepCarries(s: System, k: nat, a: Action)
    requires ClientsOk(s) && k < |s.clients|
    ensures var s' := DoClient(s, k, a);
            && |s'.clients| == |s.clients|
            && (a.FailSendTask? ==> Carried(s', k) == Carried(s, k) || Carried(s', k) == Dropped(Carried(s, k), |WrittenBy(s, k)|))
            && (!a.FailSendTask? ==> Carried(s', k) == Carried(s, k) + Made(s, s', OfClient(k, a), k))
  {
    hide ClientsOk, PhasesOk, DoClient, WrittenBy, Act, ReceivedBy, SendReady, Dropped;
    var (c, s') := (s.clients[k], DoClient(s, k, a));
    ClientIsPlaced(s, k);
    ActCarries(c, a, ReceivedBy(s, c));
    NothingMore(Carried(s, k));
    if a.OpenSocket? {
      ConnectingCarries(s, k, a.conn);
    } else if a.RunSendTask? && !c.stopped && SendReady(c) && c.conn.Some? && c.conn.value < |s.conns| {
      WritingCarries(s, k);
    } else {
      ActingCarries(s, k, a);
      DropAfter(WrittenBy(s, k), c.pending);
      if a.RunSendTask? {
        SendChangesNothing(c, ReceivedBy(s, c));
      } else if a.SendLogin? || a.Type? {
        assert s'.clients[k].pending == c.pending + s'.clients[k].pending[|c.pending|..];
        Regrouped(WrittenBy(s, k), c.pending, s'.clients[k].pending[|c.pending|..]);
      }
    }
  }

  lemma Regrouped<T>(a: seq<T>, b: seq<T>, c: seq<T>)
    ensures a + (b + c) == a + b + c
  {
  }

  lemma ClientIsPlaced(s: System, k: nat)
    requires ClientsOk(s) && k < |s.clients|
    ensures var c := s.clients[k];
            && PhasesOk(c, ReceivedBy(s, c)) && (c.conn.Some? ==> c.conn.value < |s.conns|)
            && (c.conn.Some? <==> c.reader.Running?)
  {
    assert ClientOk(s.clients[k], ReceivedBy(s, s.clients[k]));
    hide DisplayOk, ReceivedBy;
  }

  /** Without a connection no task leaves the queue. */
  lemma SendChangesNothing(c: Client, sent: seq<Instance>)
    requires PhasesOk(c, sent) && !(!c.stopped && SendReady(c) && c.conn.Some?)
    ensures Act(c, RunSendTask, sent).pending == c.pending
  {
  }

  /** The steps of everybody else leave what client `k` carries. */
  lemma OthersCarry(s: System, step: Step, k: nat)
    requires ServerOk(s) && ClientsOk(s) && Owned(s) && k < |s.clients|
    requires !(step.OfClient? && step.k == k) && !step.Outsider? && !s.rogue
    ensures var s' := Apply(s, step);
            |s'.clients| == |s.clients| && Carried(s', k) == Carried(s, k)
  {
    ClientIsPlaced(s, k);
    hide ClientsOk, PhasesOk, SignedBy, ReceivedBy;
    if step.ReadRequest? {
      ReadKeepsInboxes(s, step.c, step.now, step.failing);
      hide ServerOk, Owned, DoRead;
    } else if step.OfClient? {
      OtherClientCarries(s, step.k, step.action, k);
      hide ServerOk, Owned, DoClient;
    } else {
      hide ServerOk, Owned, Remove, Accept, ExitLoop, DoRead, DoClient;
    }
  }

  lemma ReadKeepsInboxes(s: System, c: nat, now: int, failing: set<nat>)
    requires ServerOk(s)
    ensures var s' := DoRead(s, c, now, failing);
            && s'.clients == s.clients && |s'.conns| == |s.conns|
            && forall d :: 0 <= d < |s.conns| ==> s'.conns[d].inbox == s.conns[d].inbox
  {
    NothingToRead(s, c, now, failing);
    ReadKeepsClients(s, c, now, failing);
    if CanRead(s, c) && s.conns[c].taken < |s.conns[c].inbox| {
      ReadEffect(s, c, now, failing);
      hide DoRead, Reply, InSync, Segments, UpToDate, FaultFree, NamesMatch;
      assert forall d :: 0 <= d < |s.conns| ==> d in s.srv.list || d !in s.srv.list;
    }
  }

  /** Another client writes on its own connection, which is another one. */
  lemma OtherClientCarries(s: System, l: nat, a: Action, k: nat)
    requires Owned(s) && !s.rogue && k < |s.clients| && l != k
    requires s.clients[k].conn.Some? ==> s.clients[k].conn.value < |s.conns|
    ensures var s' := DoClient(s, l, a);
            |s'.clients| == |s.clients| && Carried(s', k) == Carried(s, k)
  {
    hide Act, ReceivedBy, SignedBy, ReaderConnects, SendDone;
    if l < |s.clients| && s.clients[l].conn.Some? && s.clients[k].conn.Some? {
      var d := s.clients[l].conn.value;
      assert Owns(s, l, d);
      assert s.clients[k].conn.value == d ==> Owns(s, k, d);
    }
  }

  // ----- what that means for a run

  /** `a` is `b` with some elements left out. */
  predicate IsSubsequence<T(==)>(a: seq<T>, b: seq<T>)
    decreases |b|
  {
    a == [] ||
    (b != [] && (IsSubsequence(a, b[..|b| - 1])
                 || (a[|a| - 1] == b[|b| - 1] && IsSubsequence(a[..|a| - 1], b[..|b| - 1]))))
  }

  lemma {:induction false} Itself<T>(a: seq<T>)
    ensures IsSubsequence(a, a)
  {
    if a != [] {
      Itself(a[..|a| - 1]);
    }
  }

  lemma {:induction false} BothLonger<T>(a: seq<T>, b: seq<T>, more: seq<T>)
    requires IsSubsequence(a, b)
    ensures IsSubsequence(a + more, b + more)
    decreases |more|
  {
    if more == [] {
      assert a + more == a && b + more == b;
    } else {
      var init := more[..|more| - 1];
      BothLonger(a, b, init);
      assert (a + more)[..|a + more| - 1] == a + init && (b + more)[..|b + more| - 1] == b + init;
    }
  }

  lemma {:induction false} OneLess<T>(a: seq<T>, b: seq<T>, i: nat)
    requires IsSubsequence(a, b)
    ensures IsSubsequence(Dropped(a, i), b)
    decreases |b|
  {
    if i < |a| {
      var (a', b') := (a[..|a| - 1], b[..|b| - 1]);
      if IsSubsequence(a, b') {
        OneLess(a, b', i);
      } else {
        OneLess(a', b', i);
        if i == |a| - 1 {
          assert Dropped(a, i) == a';
        } else {
          assert Dropped(a, i)[..|a| - 2] == Dropped(a', i);
        }
      }
    }
  }

  lemma {:induction false} ClientCount(clients: nat, steps: seq<Step>)
    ensures |Run(clients, steps).clients| == clients
    decreases |steps|
  {
    RunUnfolds(clients, steps);
    hide Run, Inv;
    if steps != [] {
      ClientCount(clients, steps[..|steps| - 1]);
      StepKeepsCount(Run(clients, steps[..|steps| - 1]), steps[|steps| - 1]);
    }
  }

  lemma StepKeepsCount(s: System, step: Step)
    requires ListedExist(s)
    ensures |Apply(s, step).clients| == |s.clients|
  {
    hide Act, ExitLoop, Remove, Accept, ReaderConnects, SendDone, ReceivedBy, Broadcast, Reply;
  }

  /**
    While only clients write: what a client has written and has still to write are its requests in the order in
    which it made them, less those whose sending failed.
   */
  lemma {:induction false} RequestsInOrder(clients: nat, steps: seq<Step>, k: nat)
    requires k < clients
    ensures |Run(clients, steps).clients| == clients
    ensures !Run(clients, steps).rogue ==> IsSubsequence(Carried(Run(clients, steps), k), Queued(clients, steps, k))
    ensures !Run(clients, steps).rogue && (forall i :: 0 <= i < |steps| ==> steps[i] != OfClient(k, FailSendTask)) ==>
              Carried(Run(clients, steps), k) == Queued(clients, steps, k)
    decreases |steps|
  {
    ClientCount(clients, steps);
    RunUnfolds(clients, steps);
    hide Run, Inv, Carried, IsSubsequence, Apply, Made;
    if steps == [] {
      NothingCarried(clients, k);
      Itself<Instance>([]);
    } else {
      var (init, step) := (steps[..|steps| - 1], steps[|steps| - 1]);
      var (s, s') := (Run(clients, init), Run(clients, steps));
      RogueByStep(s, step);
      RequestsInOrder(clients, init, k);
      if !s'.rogue {
        StepCarries(s, step, k);
        if step == OfClient(k, FailSendTask) {
          OneLess(Carried(s, k), Queued(clients, init, k), |WrittenBy(s, k)|);
          NothingMade(s, s', k);
          NothingMore(Queued(clients, init, k));
        } else {
          BothLonger(Carried(s, k), Queued(clients, init, k), Made(s, s', step, k));
        }
        assert forall i :: 0 <= i < |init| ==> steps[i] == init[i];
      }
    }
  }

  lemma NothingCarried(clients: nat, k: nat)
    requires k < clients
    ensures |Start(clients).clients| == clients && Carried(Start(clients), k) == []
  {
  }

  lemma NothingMade(s: System, s': System, k: nat)
    ensures Made(s, s', OfClient(k, FailSendTask), k) == []
  {
  }

  lemma StepCarries(s: System, step: Step, k: nat)
    requires Inv(s) && k < |s.clients| && !s.rogue && !step.Outsider?
    ensures ListedExist(s)
    ensures var s' := Apply(s, step);
            && |s'.clients| == |s.clients|
            && (step == OfClient(k, FailSendTask) ==>
                  Carried(s', k) == Carried(s, k) || Carried(s', k) == Dropped(Carried(s, k), |WrittenBy(s, k)|))
            && (step != OfClient(k, FailSendTask) ==> Carried(s', k) == Carried(s, k) + Made(s, s', step, k))
  {
    InvParts(s);
    InvTraffic(s);
    NothingMore(Carried(s, k));
    hide Inv, ServerOk, ClientsOk, Owned, Answered, Carried, WrittenBy, DoClient, Dropped;
    if step.OfClient? && step.k == k {
      OwnStepCarries(s, k, step.action);
    } else {
      OthersCarry(s, step, k);
    }
  }

  /** If no send of it failed, the replies to a client answer its requests one by one, in the order it made them. */
  lemma RepliesInOrder(clients: nat, steps: seq<Step>, k: nat, j: nat)
    requires k < clients && !Run(clients, steps).rogue
    requires forall i :: 0 <= i < |steps| ==> steps[i] != OfClient(k, FailSendTask)
    requires var s := Run(clients, steps);
             j < |s.log| == |s.asker| && Owns(s, k, s.asker[j])
    ensures var s := Run(clients, steps);
            var n := Count(s.asker[..j], s.asker[j]);
            n < |Queued(clients, steps, k)| && Answers(s.log[..j], Queued(clients, steps, k)[n], s.log[j])
  {
    RequestsInOrder(clients, steps, k);
    var s := Run(clients, steps);
    InvTraffic(s);
    hide Run, Inv, ServerOk, ClientsOk, Owned, Queued, Answers, Count;
    assert EntryOk(s, j);
  }
}
