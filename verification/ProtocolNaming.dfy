/** Whose request a client's login response answers, and how two clients come to be logged in under one name. */
module ProtocolNaming {
  import opened Wrappers
  import opened Messages
  import opened ServerCore
  import opened ClientCore
  import opened Protocol
  import opened ProtocolInvariants
  import opened ProtocolClients
  import opened ProtocolOwners
  import opened ProtocolReplies
  import opened ProtocolLaws

  // ----- what holds

  /** While only clients write, each login response answers a request of a client with that name. */
  lemma LoginsAnswerClients(clients: nat, steps: seq<Step>, j: nat)
    ensures var s := Run(clients, steps);
            !s.rogue && j < |s.log| && s.log[j].LoginResponse? ==>
              && |s.asker| == |s.log|
              && exists k: nat :: Owns(s, k, s.asker[j]) && s.clients[k].user == s.log[j].username
  {
    var s := Run(clients, steps);
    hide Run, ServerOk, ClientsOk, Causal, Owned, Answered;
    if !s.rogue && j < |s.log| && s.log[j].LoginResponse? {
      LoginAnswersOwner(s, j);
    }
  }

  /** The position in the log of the first login response bearing the client's name that its socket received. */
  function NamedLogin(s: System, k: nat): nat
    requires k < |s.clients| && s.clients[k].conn.Some? && s.clients[k].conn.value < |s.conns|
  {
    s.conns[s.clients[k].conn.value].start + FirstLogin(ReceivedBy(s, s.clients[k]), s.clients[k].user)
  }

  /** Client `k` has received a login response bearing its name. */
  predicate HasNamedLogin(s: System, k: nat) {
    && k < |s.clients| && s.clients[k].conn.Some? && s.clients[k].conn.value < |s.conns|
    && FirstLogin(ReceivedBy(s, s.clients[k]), s.clients[k].user) < |ReceivedBy(s, s.clients[k])|
  }

  /** Log entry `j` answers a login request that client `k` wrote. */
  predicate AnswersLoginOf(s: System, j: nat, k: nat)
    requires j < |s.log| == |s.asker| && HasNamedLogin(s, k)
  {
    var c := s.clients[k].conn.value;
    && s.asker[j] == c
    && Count(s.asker[..j], c) < |s.conns[c].inbox|
    && s.conns[c].inbox[Count(s.asker[..j], c)].LoginRequest?
    && s.conns[c].inbox[Count(s.asker[..j], c)].from == s.clients[k].user
  }

  /**
    While only clients write, the response that a client takes for its login answers exactly one client of that
    name. That is the client itself if and only if the response was asked for on its connection, and always
    if no other client uses the name.
   */
  lemma WhoseLogin(clients: nat, steps: seq<Step>, k: nat)
    requires !Run(clients, steps).rogue && HasNamedLogin(Run(clients, steps), k)
    ensures var s := Run(clients, steps);
            var j := NamedLogin(s, k);
            && j < |s.log| == |s.asker| && IsLogin(s.log[j], s.clients[k].user)
            && (exists l: nat :: Owns(s, l, s.asker[j]) && s.clients[l].user == s.clients[k].user)
            && (AnswersLoginOf(s, j, k) <==> s.asker[j] == s.clients[k].conn.value)
            && ((forall l :: 0 <= l < |s.clients| && l != k ==> s.clients[l].user != s.clients[k].user) ==>
                  AnswersLoginOf(s, j, k))
  {
    var s := Run(clients, steps);
    var j := NamedLogin(s, k);
    NamedLoginIsLogged(clients, steps, k);
    LoginsAnswerClients(clients, steps, j);
    InvOwners(s);
    hide Run, Inv, FirstLogin, ReceivedBy, NamedLogin, Count, Answers, Answered, Owned, IsLogin;
    RequestOfReply(s, j);
    IsLoginMeans(s.log[j], s.clients[k].user);
    if forall l :: 0 <= l < |s.clients| && l != k ==> s.clients[l].user != s.clients[k].user {
      var l: nat :| Owns(s, l, s.asker[j]) && s.clients[l].user == s.log[j].username;
      assert l == k;
    }
  }

  lemma InvOwners(s: System)
    requires Inv(s)
    ensures Answered(s)
  {
    hide ServerOk, ClientsOk, Causal, Owned, Answered;
  }

  lemma IsLoginMeans(m: Instance, user: string)
    ensures IsLogin(m, user) <==> m.LoginResponse? && m.username == user
  {
  }

  lemma NamedLoginIsLogged(clients: nat, steps: seq<Step>, k: nat)
    requires HasNamedLogin(Run(clients, steps), k)
    ensures var s := Run(clients, steps);
            NamedLogin(s, k) < |s.log| && IsLogin(s.log[NamedLogin(s, k)], s.clients[k].user)
  {
    hide Run, Inv, FirstLogin, IsLogin;
    var s := Run(clients, steps);
    var conn := s.conns[s.clients[k].conn.value];
    var f := FirstLogin(conn.sent, s.clients[k].user);
    SentIsLogSegment(clients, steps, s.clients[k].conn.value);
    EntryOfSlice(s.log, conn.start, conn.sent, f);
  }

  lemma EntryOfSlice(log: seq<Instance>, start: nat, sent: seq<Instance>, f: nat)
    requires start + |sent| <= |log| && sent == log[start..start + |sent|] && f < |sent|
    ensures log[start + f] == sent[f]
  {
  }

  /** The request that a login response answers is a login request for its user. */
  lemma RequestOfReply(s: System, j: nat)
    requires Answered(s) && j < |s.log| && s.log[j].LoginResponse?
    ensures |s.asker| == |s.log|
    ensures var c := s.asker[j];
            && c < |s.conns| && Count(s.asker[..j], c) < |s.conns[c].inbox|
            && s.conns[c].inbox[Count(s.asker[..j], c)].LoginRequest?
            && s.conns[c].inbox[Count(s.asker[..j], c)].from == s.log[j].username
  {
    assert EntryOk(s, j);
    hide Count, LoginIn;
  }

  // ----- what does not hold

  ghost function Play(s: System, steps: seq<Step>): (s': System)
    requires Inv(s)
    ensures Inv(s')
    decreases |steps|
  {
    if steps == [] then s
    else
      StepKeepsInv(s, steps[0]);
      Play(Apply(s, steps[0]), steps[1..])
  }

  lemma {:induction false} RunPlays(clients: nat, done: seq<Step>, steps: seq<Step>)
    ensures Run(clients, done + steps) == Play(Run(clients, done), steps)
    decreases |steps|
  {
    hide Inv, Run, Apply;
    if steps == [] {
      assert done + steps == done;
    } else {
      assert done + [] == done && done + steps == done + [steps[0]] + steps[1..];
      RunAppend(clients, done, [], steps[0]);
      RunPlays(clients, done + [steps[0]], steps[1..]);
    }
  }

  lemma PlayStep(s: System, step: Step, rest: seq<Step>)
    requires Inv(s)
    ensures ListedExist(s) && Inv(Apply(s, step)) && Play(s, [step] + rest) == Play(Apply(s, step), rest)
  {
    StepKeepsInv(s, step);
    assert ([step] + rest)[1..] == rest;
    hide Apply, ClientsOk, Causal, Answered, Owned, Segments, UpToDate, FaultFree, NamesMatch;
  }

  const BLANK := Conn(false, true, [], 0, [], 0)

  /** A client at line 125 with its connection made. */
  function AtSend(conn: nat): Client {
    Client(HasConnection, "bob", At125, Running, Some(conn), [], 0, Nothing, [], false)
  }

  const START := StartLogin("bob")

  function Connects(k: nat): seq<Step> {
    [OfClient(k, START), OfClient(k, Connect(true)), OfClient(k, Connected), OfClient(k, TakeLock), OfClient(k, OpenSocket(0))]
  }

  lemma ConnectsPlayed(s: System, k: nat)
    requires Inv(s) && k < |s.clients| && s.clients[k] == FRESH
    ensures Play(s, Connects(k)) == s.(clients := s.clients[k := AtSend(|s.conns|)], conns := s.conns + [BLANK])
  {
    hide Inv, Play, DoAccept, DoRead, DoReadEnd, DoReadError, DoStdin, DoOutsider;
    var steps := Connects(k);
    var c1 := FRESH.(user := "bob", pc := At109);
    var c2 := c1.(reader := Started, pc := At110);
    var c3 := c2.(state := HasConnection, pc := At125);
    var c4 := c3.(reader := Connecting);
    var s1 := PlayClient(s, k, START, c1, steps[1..]);
    var s2 := PlayClient(s1, k, Connect(true), c2, steps[2..]);
    var s3 := PlayClient(s2, k, Connected, c3, steps[3..]);
    var s4 := PlayClient(s3, k, TakeLock, c4, steps[4..]);
    PlayStep(s4, steps[4], []);
    PlayNothing(Apply(s4, steps[4]));
    assert steps == [steps[0]] + steps[1..] && steps[1..] == [steps[1]] + steps[2..] && steps[2..] == [steps[2]] + steps[3..];
    assert steps[3..] == [steps[3]] + steps[4..] && steps[4..] == [steps[4]] + [];
  }

  lemma PlayNothing(s: System)
    requires Inv(s)
    ensures Play(s, []) == s
  {
  }

  /** A step of one client that touches no channel. */
  lemma PlayClient(s: System, k: nat, a: Action, c: Client, rest: seq<Step>) returns (s': System)
    requires Inv(s) && k < |s.clients| && !a.OpenSocket? && !a.RunSendTask?
    requires Act(s.clients[k], a, ReceivedBy(s, s.clients[k])) == c
    ensures s' == s.(clients := s.clients[k := c]) && Inv(s')
    ensures Play(s, [OfClient(k, a)] + rest) == Play(s', rest)
  {
    hide Inv, Play, Act, ReceivedBy, DoAccept, DoRead, DoReadEnd, DoReadError, DoStdin, DoOutsider, DoDial;
    s' := s.(clients := s.clients[k := c]);
    PlayStep(s, OfClient(k, a), rest);
  }

  const JOINED := LoginResponse(0, SERVER_SENDER, "bob")

  /** Both connect under one name; the second one's request is answered before the first one has made any. */
  const ACCEPTS: seq<Step> := [
    AcceptSocket(0), AcceptSocket(1), OfClient(1, SendLogin(0)), OfClient(1, RunSendTask), ReadRequest(1, 0, {})]

  /** Both finish their login, read the one response, and the first writes a message. */
  const ENTERS: seq<Step> := [
    OfClient(1, FinishLogin), OfClient(1, TakeReply), OfClient(1, CheckReply(true)),
    OfClient(0, SendLogin(0)), OfClient(0, FinishLogin), OfClient(0, TakeReply), OfClient(0, CheckReply(true)),
    OfClient(0, Type(0, "hi"))]

  function BothConnected(): System {
    Protocol.Start(2).(clients := [AtSend(0), AtSend(1)], conns := [BLANK, BLANK])
  }

  function Answered1(): System {
    BothConnected().(
      srv := ServerState([0, 1], {0, 1}, ["bob"], true),
      conns := [Conn(true, true, [], 0, [JOINED], 0), Conn(true, true, [LoginRequest(0, "bob")], 1, [JOINED], 0)],
      clients := [AtSend(0), AtSend(1).(pc := At126)],
      log := [JOINED], asker := [1])
  }

  lemma AcceptsPlayed()
    requires Inv(BothConnected())
    ensures Play(BothConnected(), ACCEPTS) == Answered1()
  {
    hide Inv, Play, DoRead, DoReadEnd, DoReadError, DoStdin, DoOutsider, DoDial;
    var s := BothConnected();
    var request := LoginRequest(0, "bob");
    PlayStep(s, ACCEPTS[0], ACCEPTS[1..]);
    var s1 := Apply(s, ACCEPTS[0]);
    PlayStep(s1, ACCEPTS[1], ACCEPTS[2..]);
    var s2 := Apply(s1, ACCEPTS[1]);
    assert s2 == s.(srv := ServerState([0, 1], {0, 1}, [], true), conns := [BLANK.(accepted := true), BLANK.(accepted := true)]);
    var s3 := PlayClient(s2, 1, SendLogin(0), AtSend(1).(pc := At126, pending := [request]), ACCEPTS[3..]);
    PlayStep(s3, ACCEPTS[3], ACCEPTS[4..]);
    var s4 := Apply(s3, ACCEPTS[3]);
    assert [request][1..] == [] && [] + [request] == [request] && s3.clients == [AtSend(0), AtSend(1).(pc := At126, pending := [request])];
    assert s4 == s2.(clients := [AtSend(0), AtSend(1).(pc := At126)],
                     conns := [BLANK.(accepted := true), BLANK.(accepted := true, inbox := [request])]);
    PlayStep(s4, ACCEPTS[4], []);
    FirstIsAnswered(s4);
    PlayNothing(Answered1());
    assert ACCEPTS == [ACCEPTS[0]] + ACCEPTS[1..] && ACCEPTS[1..] == [ACCEPTS[1]] + ACCEPTS[2..];
    assert ACCEPTS[2..] == [ACCEPTS[2]] + ACCEPTS[3..] && ACCEPTS[3..] == [ACCEPTS[3]] + ACCEPTS[4..];
    assert ACCEPTS[4..] == [ACCEPTS[4]] + [];
  }

  lemma FirstIsAnswered(s: System)
    requires s == BothConnected().(
               srv := ServerState([0, 1], {0, 1}, [], true), clients := [AtSend(0), AtSend(1).(pc := At126)],
               conns := [BLANK.(accepted := true), BLANK.(accepted := true, inbox := [LoginRequest(0, "bob")])])
    ensures ListedExist(s) && Apply(s, ReadRequest(1, 0, {})) == Answered1()
  {
    var (c0, c1) := (s.conns[0], s.conns[1]);
    var (d0, d1) := (c0.(sent := [JOINED]), c1.(sent := [JOINED]));
    assert [] + [JOINED] == [JOINED];
    assert s.conns == [c0, c1] && s.conns[0 := d0] == [d0, c1] && [d0, c1][1 := d1] == [d0, d1];
    assert [0, 1][1..] == [1] && [1][1..] == [];
    assert Broadcast([d0, d1], [], JOINED, {}) == ([d0, d1], false);
    assert Written(c0, JOINED, true) == d0 && Written(c1, JOINED, true) == d1;
    assert Broadcast([d0, c1], [1], JOINED, {}) == ([d0, d1], false);
    assert Broadcast(s.conns, [0, 1], JOINED, {}) == ([d0, d1], false);
  }

  /** The state in which both are logged in, and the first one has yet to send its request. */
  function BothLoggedIn(): System {
    Answered1().(clients := [
      AtSend(0).(pc := Outside, state := IsLoggedIn, seen := 1, handling := Checked(JOINED),
                 pending := [LoginRequest(0, "bob"), MessageRequest(0, "bob", "hi")]),
      AtSend(1).(pc := Outside, state := IsLoggedIn, seen := 1, handling := Checked(JOINED))])
  }

  function SecondEntered(): Client {
    AtSend(1).(pc := Outside, state := IsLoggedIn, seen := 1, handling := Checked(JOINED))
  }

  lemma SecondEnters()
    requires Inv(Answered1())
    ensures var s := Answered1().(clients := [AtSend(0), SecondEntered()]);
            Inv(s) && Play(Answered1(), ENTERS) == Play(s, ENTERS[3..])
  {
    hide Inv, Play;
    var s := Answered1();
    var b1 := AtSend(1).(pc := Outside, state := AttemptedLogin);
    var b2 := b1.(seen := 1, handling := Taken(JOINED));
    var s1 := PlayClient(s, 1, FinishLogin, b1, ENTERS[1..]);
    var s2 := PlayClient(s1, 1, TakeReply, b2, ENTERS[2..]);
    var s3 := PlayClient(s2, 1, CheckReply(true), SecondEntered(), ENTERS[3..]);
    assert s3.clients == [AtSend(0), SecondEntered()];
    assert ENTERS == [ENTERS[0]] + ENTERS[1..] && ENTERS[1..] == [ENTERS[1]] + ENTERS[2..];
    assert ENTERS[2..] == [ENTERS[2]] + ENTERS[3..];
  }

  lemma FirstEnters(s: System)
    requires Inv(s) && s == Answered1().(clients := [AtSend(0), SecondEntered()])
    ensures Play(s, ENTERS[3..]) == BothLoggedIn()
  {
    hide Inv, Play;
    var a1 := AtSend(0).(pc := At126, pending := [LoginRequest(0, "bob")]);
    var a2 := a1.(pc := Outside, state := AttemptedLogin);
    var a3 := a2.(seen := 1, handling := Taken(JOINED));
    var a4 := a3.(state := IsLoggedIn, handling := Checked(JOINED));
    var a5 := a4.(pending := [LoginRequest(0, "bob"), MessageRequest(0, "bob", "hi")]);
    var s1 := PlayClient(s, 0, SendLogin(0), a1, ENTERS[4..]);
    var s2 := PlayClient(s1, 0, FinishLogin, a2, ENTERS[5..]);
    var s3 := PlayClient(s2, 0, TakeReply, a3, ENTERS[6..]);
    var s4 := PlayClient(s3, 0, CheckReply(true), a4, ENTERS[7..]);
    var s5 := PlayClient(s4, 0, Type(0, "hi"), a5, []);
    PlayNothing(s5);
    assert ENTERS[3..] == [ENTERS[3]] + ENTERS[4..] && ENTERS[4..] == [ENTERS[4]] + ENTERS[5..];
    assert ENTERS[5..] == [ENTERS[5]] + ENTERS[6..] && ENTERS[6..] == [ENTERS[6]] + ENTERS[7..];
    assert ENTERS[7..] == [ENTERS[7]] + [];
  }

  /**
    Two clients logged in under one name, without a fault and without any request but theirs. The first took
    the response to the second one's request for its own, whose request it has not even sent, and can write.
   */
  lemma TwoUnderOneName()
    ensures var s := Run(2, Connects(0) + Connects(1) + ACCEPTS + ENTERS);
            && !s.rogue && !s.faulty && |s.clients| == 2 && HasNamedLogin(s, 0)
            && (forall k :: 0 <= k < 2 ==> s.clients[k].state.IsLoggedIn? && s.clients[k].user == "bob")
            && s.log == [JOINED] && s.asker == [1] && !AnswersLoginOf(s, NamedLogin(s, 0), 0)
            && s.clients[0].pending == [LoginRequest(0, "bob"), MessageRequest(0, "bob", "hi")]
  {
    hide Inv, Play, Run;
    var (a, b) := (Connects(0), Connects(1));
    RunUnfolds(2, []);
    RunPlays(2, [], a);
    RunPlays(2, a, b);
    RunPlays(2, a + b, ACCEPTS);
    RunPlays(2, a + b + ACCEPTS, ENTERS);
    assert [] + a == a;
    var s := Protocol.Start(2);
    ConnectsPlayed(s, 0);
    ConnectsPlayed(Play(s, a), 1);
    assert Play(Play(s, a), b) == BothConnected();
    AcceptsPlayed();
    SecondEnters();
    FirstEnters(Answered1().(clients := [AtSend(0), SecondEntered()]));
    assert FirstLogin([JOINED], "bob") == 0;
  }
}
