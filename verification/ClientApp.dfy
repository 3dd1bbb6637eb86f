/**
  The client's objects. Each atomic piece of code is proved to be the client's step of the same name;
  `login` is then run whole, with the other threads coming in at every cut.
 */
module ClientApp {
  import opened Wrappers
  import opened Messages
  import opened ServerCore
  import opened ClientCore

  /** A step of some thread, and what the socket has received by then. */
  datatype Event = Event(action: Action, sent: seq<Instance>)

  function Acts(c: Client, events: seq<Event>): Client
    decreases |events|
  {
    if events == [] then c else Acts(Act(c, events[0].action, events[0].sent), events[1..])
  }

  lemma {:induction false} ActsInTurn(c: Client, a: seq<Event>, b: seq<Event>)
    ensures Acts(c, a + b) == Acts(Acts(c, a), b)
    decreases |a|
  {
    if a == [] {
      assert a + b == b;
    } else {
      assert (a + b)[1..] == a[1..] + b;
      ActsInTurn(Act(c, a[0].action, a[0].sent), a[1..], b);
    }
  }

  /** A step of one thread, and what the others do before its next one. */
  function Cut(step: Action, others: seq<Event>): seq<Event> {
    [Event(step, [])] + others
  }

  lemma NextCut(c: Client, done: seq<Event>, step: Action, others: seq<Event>)
    ensures Acts(c, done + Cut(step, others)) == Acts(Act(Acts(c, done), step, []), others)
  {
    ActsInTurn(c, done, Cut(step, others));
    assert Cut(step, others)[1..] == others;
  }

  lemma NoActs(c: Client)
    ensures Acts(c, []) == c
  {
  }

  /** `login` up to line 126, with the other threads running at the cuts. */
  function LoginSoFar(name: string, hostKnown: bool, now: int, others: seq<seq<Event>>): seq<Event>
    requires |others| == 4
  {
    [] + Cut(StartLogin(name), others[0]) + Cut(Connect(hostKnown), others[1]) + Cut(Connected, others[2])
    + Cut(SendLogin(now), others[3])
  }

  function LoginEvents(name: string, hostKnown: bool, now: int, others: seq<seq<Event>>): seq<Event>
    requires |others| == 4
  {
    LoginSoFar(name, hostKnown, now, others) + Cut(FinishLogin, [])
  }

  /** What the five steps are for a client that has not stopped. */
  lemma LoginSteps(c: Client, name: string, hostKnown: bool, now: int)
    ensures Act(c, StartLogin(name), []) == if c.stopped then c else LoginStart(c, name)
    ensures Act(c, Connect(hostKnown), []) == if c.stopped then c else LoginConnect(c, hostKnown)
    ensures Act(c, Connected, []) == if c.stopped then c else LoginConnected(c)
    ensures Act(c, SendLogin(now), []) == if c.stopped then c else LoginSend(c, now)
    ensures Act(c, FinishLogin, []) == if c.stopped then c else LoginFinish(c)
  {
  }

  /** The steps of the UI thread. */
  predicate OnUiThread(a: Action) {
    a.StartLogin? || a.Connect? || a.Connected? || a.SendLogin? || a.FinishLogin? || a.Type?
  }

  predicate OffUiThread(events: seq<Event>) {
    forall i :: 0 <= i < |events| ==> !OnUiThread(events[i].action)
  }

  /** A connection exists exactly once line 109 has run. */
  predicate Placed(c: Client) {
    && (c.reader.NotStarted? ==> c.state.NoConnection? && (c.pc.Outside? || c.pc.At109?))
    && (!c.reader.NotStarted? ==> !c.pc.At109? && (c.state.NoConnection? ==> c.pc.At110?))
  }

  lemma {:induction false} OthersKeepPc(c: Client, events: seq<Event>)
    requires OffUiThread(events)
    ensures Acts(c, events).pc == c.pc && Acts(c, events).user == c.user && (c.stopped ==> Acts(c, events).stopped)
    decreases |events|
  {
    if events != [] {
      OthersKeepPc(Act(c, events[0].action, events[0].sent), events[1..]);
    }
  }

  /** Any run of any threads keeps the client consistent with what its socket will have received by the end. */
  lemma {:induction false} ActsKeepClient(c: Client, events: seq<Event>, sent: seq<Instance>)
    requires ClientOk(c, sent) && LoginsUnique(sent)
    requires forall i :: 0 <= i < |events| ==> events[i].sent <= sent
    ensures ClientOk(Acts(c, events), sent)
    decreases |events|
  {
    if events != [] {
      var (a, received) := (events[0].action, events[0].sent);
      EarlierReplies(c, a, received, sent);
      ActKeepsClient(c, a, sent);
      hide ClientOk, Act, LoginsUnique;
      ActsKeepClient(Act(c, a, received), events[1..], sent);
    }
  }

  /** A step sees a prefix of the replies: it is the step that sees them all, or it finds nothing to take. */
  lemma EarlierReplies(c: Client, a: Action, received: seq<Instance>, sent: seq<Instance>)
    requires received <= sent
    ensures Act(c, a, received) == Act(c, a, sent) || Act(c, a, received) == c
  {
  }

  /** Once `login` is over, no run of any threads changes whether the client is locked out. */
  lemma {:induction false} ActsKeepSettled(c: Client, events: seq<Event>, sent: seq<Instance>)
    requires ClientOk(c, sent) && LoginsUnique(sent) && c.pc.Outside? && !c.reader.NotStarted?
    requires forall i :: 0 <= i < |events| ==> events[i].sent <= sent
    ensures LockedOut(Acts(c, events), sent) <==> LockedOut(c, sent)
    ensures Acts(c, events).user == c.user
    decreases |events|
  {
    if events != [] {
      var (a, received) := (events[0].action, events[0].sent);
      EarlierReplies(c, a, received, sent);
      ActKeepsClient(c, a, sent);
      LockOutIsSettled(c, a, sent);
      hide ClientOk, LockedOut, Act, LoginsUnique;
      ActsKeepSettled(Act(c, a, received), events[1..], sent);
    }
  }

  /**
    How a login ends, for every interleaving and every continuation: the client is locked out exactly if
    a login response bearing its name was checked before line 126 ran. Otherwise it is logged in exactly from
    when such a response is checked.
   */
  lemma LoginOutcome(c: Client, name: string, now: int, others: seq<seq<Event>>, more: seq<Event>, sent: seq<Instance>)
    requires ClientOk(c, sent) && LoginsUnique(sent) && c.pc.Outside? && c.state.NoConnection? && |name| >= 3
    requires |others| == 4 && forall k :: 0 <= k < 4 ==> OffUiThread(others[k])
    requires forall k, i :: 0 <= k < 4 && 0 <= i < |others[k]| ==> others[k][i].sent <= sent
    requires forall i :: 0 <= i < |more| ==> more[i].sent <= sent
    ensures var before := Acts(c, LoginSoFar(name, true, now, others));
            var c' := Acts(c, LoginEvents(name, true, now, others) + more);
            var named := FirstLogin(sent, name);
            !before.stopped ==>
              && before.pc.At126? && c'.user == name
              && (LockedOut(c', sent) <==> named < CheckedCount(before))
              && (c'.state.IsLoggedIn? <==> named < CheckedCount(c') && !(named < CheckedCount(before)))
  {
    var done := LoginSoFar(name, true, now, others);
    var before := Acts(c, done);
    LoginSent(name, now, others, sent);
    ActsKeepClient(c, done, sent);
    LoginReturns(c, name, now, others);
    if !before.stopped {
      FinishSettles(before, sent);
      var c1 := LoginFinish(before);
      NextCut(c, done, FinishLogin, []);
      NoActs(Act(before, FinishLogin, []));
      LoginSteps(before, name, true, now);
      ActsInTurn(c, done + Cut(FinishLogin, []), more);
      ActsKeepSettled(c1, more, sent);
      ActsKeepClient(c1, more, sent);
      LoggedInIsChecked(Acts(c1, more), sent);
      hide Acts, ClientOk, LoginsUnique, FirstLogin;
    }
  }

  /** Line 126 decides between the two. */
  lemma FinishSettles(before: Client, sent: seq<Instance>)
    requires ClientOk(before, sent) && before.pc.At126?
    ensures var c := LoginFinish(before);
            && ClientOk(c, sent) && c.pc.Outside? && !c.reader.NotStarted? && c.user == before.user
            && (LockedOut(c, sent) <==> FirstLogin(sent, before.user) < CheckedCount(before))
  {
    hide FirstLogin;
  }

  lemma LoggedInIsChecked(c: Client, sent: seq<Instance>)
    requires ClientOk(c, sent)
    ensures c.state.IsLoggedIn? <==> FirstLogin(sent, c.user) < CheckedCount(c) && !LockedOut(c, sent)
  {
    hide FirstLogin;
  }

  lemma LoginSent(name: string, now: int, others: seq<seq<Event>>, sent: seq<Instance>)
    requires |others| == 4
    requires forall k, i :: 0 <= k < 4 && 0 <= i < |others[k]| ==> others[k][i].sent <= sent
    ensures var events := LoginSoFar(name, true, now, others);
            forall i :: 0 <= i < |events| ==> events[i].sent <= sent
  {
    forall e | e in LoginSoFar(name, true, now, others) ensures e.sent <= sent {
      assert e.sent == [] || exists k :: 0 <= k < 4 && e in others[k];
    }
  }

  lemma NextPc(c: Client, done: seq<Event>, step: Action, others: seq<Event>) returns (more: seq<Event>)
    requires OffUiThread(others)
    ensures more == done + Cut(step, others)
    ensures var x := Act(Acts(c, done), step, []);
            var y := Acts(c, more);
            y.pc == x.pc && y.user == x.user && (x.stopped ==> y.stopped)
  {
    more := done + Cut(step, others);
    NextCut(c, done, step, others);
    OthersKeepPc(Act(Acts(c, done), step, []), others);
  }

  lemma LoginReturns(c: Client, name: string, now: int, others: seq<seq<Event>>)
    requires c.pc.Outside? && c.state.NoConnection? && |name| >= 3 && |others| == 4
    requires forall k :: 0 <= k < 4 ==> OffUiThread(others[k])
    ensures var before := Acts(c, LoginSoFar(name, true, now, others));
            !before.stopped ==> before.pc.At126? && before.user == name
  {
    hide Acts, Act, Cut, OffUiThread;
    var d := [];
    NoActs(c);
    LoginSteps(c, name, true, now);
    d := NextPc(c, d, StartLogin(name), others[0]);
    LoginSteps(Acts(c, d), name, true, now);
    d := NextPc(c, d, Connect(true), others[1]);
    LoginSteps(Acts(c, d), name, true, now);
    d := NextPc(c, d, Connected, others[2]);
    LoginSteps(Acts(c, d), name, true, now);
    d := NextPc(c, d, SendLogin(now), others[3]);
  }

  class NetworkingConnection {
    /** Where the reader thread stands; it holds the socket lock while connecting. */
    var reader: Reader
    var sock: Option<nat>
    /** The background tasks, which run one at a time in order. */
    var tasks: seq<Instance>
    /** What was written to the socket. */
    var written: seq<Instance>
    var seen: nat
    var handling: Handling

    constructor ()
      ensures reader == Started && sock == None && tasks == [] && written == [] && seen == 0 && handling == Nothing
    {
      reader, sock, tasks, written, seen, handling := Started, None, [], [], 0, Nothing;
    }

    method Send(message: Instance)
      modifies this`tasks
      ensures tasks == old(tasks) + [message]
    {
      tasks := tasks + [message];
    }
  }

  class MainActivity {
    var state: UiState
    var user: string
    var connection: NetworkingConnection?
    var shown: seq<Instance>
    var stopped: bool
    ghost var pc: LoginPc

    constructor ()
      ensures View() == FRESH && connection == null
    {
      state, user, connection, shown, stopped := NoConnection, [], null, [], false;
      pc := Outside;
    }

    ghost function View(): Client
      reads this, connection
    {
      if connection == null then Client(state, user, pc, NotStarted, None, [], 0, Nothing, shown, stopped)
      else Client(state, user, pc, connection.reader, connection.sock, connection.tasks,
                  connection.seen, connection.handling, shown, stopped)
    }

    ghost predicate Valid()
      reads this, connection
    {
      Placed(View()) && (connection != null ==> !connection.reader.NotStarted?)
    }

    // ----- the reader thread

    method LockSocket()
      modifies connection
      ensures View() == ReaderLocks(old(View()))
      ensures connection != null ==>
                connection.reader == if old(connection.reader).Started? then Connecting else old(connection.reader)
    {
      if connection != null && connection.reader.Started? {
        connection.reader := Connecting;
      }
    }

    method OpenSocket(conn: nat)
      modifies connection
      ensures View() == ReaderConnects(old(View()), conn)
      ensures connection != null && old(connection.reader).Connecting? ==>
                connection.reader == Running && connection.sock == Some(conn)
    {
      if connection != null && connection.reader.Connecting? {
        connection.sock := Some(conn);
        connection.reader := Running;
      }
    }

    method FailToOpen()
      modifies connection
      ensures View() == ReaderFails(old(View()))
      ensures connection != null && old(connection.reader).Connecting? ==>
                connection.reader == Failed && connection.sock == old(connection.sock)
    {
      if connection != null && connection.reader.Connecting? {
        connection.reader := Failed;
      }
    }

    method TakeReply(sent: seq<Instance>)
      modifies connection
      ensures View() == ReaderTakes(old(View()), sent)
      ensures connection != null ==>
                var ready := old(connection.reader.Running? && connection.handling.Nothing? && connection.seen < |sent|);
                && connection.seen == old(connection.seen) + (if ready then 1 else 0)
                && (ready ==> connection.handling == Taken(sent[old(connection.seen)]))
    {
      if connection != null && connection.reader.Running? && connection.handling.Nothing? && connection.seen < |sent| {
        connection.handling := Taken(sent[connection.seen]);
        connection.seen := connection.seen + 1;
      }
    }

    /** The first half of `visitLogin`, or `visitMessage`, or the exception for other replies. */
    method CheckReply(decodes: bool)
      modifies this, connection
      ensures View() == ReaderChecks(old(View()), decodes) && connection == old(connection)
      ensures connection != null && old(connection.handling).Taken? ==>
                var reply := old(connection.handling).reply;
                var named := decodes && reply.LoginResponse? && reply.username == user;
                var message := decodes && reply.MessageResponse? && old(state).IsLoggedIn?;
                && state == (if named then IsLoggedIn else old(state))
                && shown == old(shown) + (if message then [reply] else [])
                && (stopped <==> old(stopped) || !decodes || !(reply.LoginResponse? || reply.MessageResponse?))
    {
      if connection != null && connection.handling.Taken? {
        if !decodes {
          stopped := true;
          return;
        }
        var reply := connection.handling.reply;
        match reply
        case LoginResponse(_, _, username) =>
          if username == user {
            state := IsLoggedIn;
          }
          connection.handling := Checked(reply);
        case MessageResponse(_, _, _, _) =>
          if state.IsLoggedIn? {
            shown := shown + [reply];
          }
          connection.handling := Nothing;
        case _ =>
          stopped := true;
      }
    }

    /** The second half of `visitLogin`. */
    method ShowReply()
      modifies this, connection
      ensures View() == ReaderShows(old(View())) && connection == old(connection)
      ensures connection != null && old(connection.handling).Checked? ==>
                && connection.handling == Nothing
                && shown == old(shown) + (if state.IsLoggedIn? then [old(connection.handling).reply] else [])
    {
      if connection != null && connection.handling.Checked? {
        if state.IsLoggedIn? {
          shown := shown + [connection.handling.reply];
        }
        connection.handling := Nothing;
      }
    }

    // ----- the background tasks

    /** The first task writes its message, unless the write fails, which only drops it. */
    method RunTask(fails: bool)
      modifies this`stopped, connection
      ensures View() == if SendReady(old(View())) then SendDone(old(View())) else old(View())
      ensures connection != null && old(connection.reader.Running? && connection.tasks != []) ==>
                connection.tasks == old(connection.tasks)[1..] && stopped == old(stopped)
      ensures connection != null && old(connection.reader.Started? && connection.tasks != []) ==> stopped
      ensures connection != null ==>
                connection.written == if old(connection.reader.Running? && connection.tasks != []) && !fails
                                      then old(connection.written) + [old(connection.tasks)[0]]
                                      else old(connection.written)
    {
      if connection != null && connection.tasks != [] {
        if connection.reader.Running? {
          if !fails {
            connection.written := connection.written + [connection.tasks[0]];
          }
          connection.tasks := connection.tasks[1..];
        } else if connection.reader.Started? {
          stopped := true;
        }
      }
    }

    /** One step of any thread but the UI thread. */
    method Other(e: Event)
      requires Valid() && !OnUiThread(e.action)
      modifies this, connection
      ensures View() == Act(old(View()), e.action, e.sent) && connection == old(connection) && Valid()
    {
      if stopped {
        return;
      }
      match e.action
      case TakeLock => LockSocket();
      case OpenSocket(conn) => OpenSocket(conn);
      case FailToOpen => FailToOpen();
      case RunSendTask => RunTask(false);
      case FailSendTask => RunTask(true);
      case TakeReply => TakeReply(e.sent);
      case CheckReply(decodes) => CheckReply(decodes);
      case ShowReply => ShowReply();
      case Leave => stopped := true;
    }

    method Others(events: seq<Event>)
      requires Valid() && OffUiThread(events)
      modifies this, connection
      ensures View() == Acts(old(View()), events) && connection == old(connection) && Valid()
    {
      var i := 0;
      assert events[0..] == events;
      while i < |events|
        invariant i <= |events| && connection == old(connection) && Valid()
        invariant Acts(View(), events[i..]) == Acts(old(View()), events)
      {
        assert events[i..][1..] == events[i + 1..];
        Other(events[i]);
        i := i + 1;
      }
    }

    // ----- the UI thread

    /** `onMsgSend`. */
    method OnMsgSend(now: int, msg: string)
      requires Valid() && pc.Outside?
      modifies connection
      ensures View() == SendMessage(old(View()), now, msg)
      ensures connection == old(connection)
      ensures old(state).IsLoggedIn? && msg != [] ==>
                connection != null && connection.tasks == old(connection.tasks) + [MessageRequest(now, user, msg)]
      ensures !(old(state).IsLoggedIn? && msg != []) ==> View() == old(View())
    {
      if !state.IsLoggedIn? {
        return;
      }
      if |msg| == 0 {
        return;
      }
      connection.Send(MessageRequest(now, user, msg));
    }

    /** The other threads at a cut; the UI thread's position and name stay. */
    method Interrupted(events: seq<Event>, ghost c: Client, ghost done: seq<Event>, ghost step: Action)
      requires Valid() && OffUiThread(events)
      requires View() == Act(Acts(c, done), step, [])
      modifies this, connection
      ensures View() == Acts(c, done + Cut(step, events)) && connection == old(connection) && Valid()
      ensures pc == old(pc) && user == old(user) && (old(stopped) ==> stopped)
    {
      NextCut(c, done, step, events);
      OthersKeepPc(View(), events);
      Others(events);
    }

    /** Line 109. */
    method Connect(hostKnown: bool)
      requires Valid() && pc.At109? && state.NoConnection?
      modifies this
      ensures View() == LoginConnect(old(View()), hostKnown) && Valid()
      ensures hostKnown ==> connection != null && fresh(connection) && connection.reader == Started && connection.tasks == []
      ensures !hostKnown ==> connection == null && stopped
    {
      if hostKnown {
        connection := new NetworkingConnection();
        pc := At110;
      } else {
        stopped := true;
      }
    }

    /** Line 110. */
    method SetConnected()
      requires Valid() && pc.At110?
      modifies this`state, this`pc
      ensures View() == LoginConnected(old(View())) && Valid()
      ensures state == HasConnection
    {
      state, pc := HasConnection, At125;
    }

    /** Lines 124 and 125. */
    method SendLogin(now: int)
      requires Valid() && pc.At125?
      modifies this`pc, connection
      ensures View() == LoginSend(old(View()), now) && Valid()
      ensures connection != null && connection.tasks == old(connection.tasks) + [LoginRequest(now, user)]
    {
      connection.Send(LoginRequest(now, user));
      pc := At126;
    }

    /** Line 126. */
    method SetAttempted()
      requires Valid() && pc.At126?
      modifies this`state, this`pc
      ensures View() == LoginFinish(old(View())) && Valid()
      ensures state == AttemptedLogin
    {
      state, pc := AttemptedLogin, Outside;
    }

    /**
      `login`, with the other threads running at its cuts: whatever they do, it is the client's five steps
      with theirs in between. A client that has stopped runs nothing more.
     */
    method Login(name: string, hostKnown: bool, now: int, others: seq<seq<Event>>)
      requires Valid() && pc.Outside? && !stopped
      requires |others| == 4 && forall k :: 0 <= k < 4 ==> OffUiThread(others[k])
      modifies this, connection
      ensures old(state).NoConnection? && |name| >= 3 ==>
                View() == Acts(old(View()), LoginEvents(name, hostKnown, now, others))
                && (!stopped ==> state.AttemptedLogin? && user == name)
      ensures !(old(state).NoConnection? && |name| >= 3) ==> View() == old(View())
      ensures Valid()
    {
      hide Act, Acts, OffUiThread, Cut;
      if !state.NoConnection? {
        return;
      }
      if |name| < 3 {
        return;
      }
      ghost var c, done := View(), [];
      NoActs(c);
      user, pc := name, At109;
      LoginSteps(c, name, hostKnown, now);
      Interrupted(others[0], c, done, StartLogin(name));
      done := done + Cut(StartLogin(name), others[0]);
      LoginSteps(View(), name, hostKnown, now);
      if !stopped {
        Connect(hostKnown);
      }
      Interrupted(others[1], c, done, Action.Connect(hostKnown));
      done := done + Cut(Action.Connect(hostKnown), others[1]);
      LoginSteps(View(), name, hostKnown, now);
      if !stopped {
        SetConnected();
      }
      Interrupted(others[2], c, done, Connected);
      done := done + Cut(Connected, others[2]);
      LoginSteps(View(), name, hostKnown, now);
      if !stopped {
        SendLogin(now);
      }
      Interrupted(others[3], c, done, Action.SendLogin(now));
      done := done + Cut(Action.SendLogin(now), others[3]);
      LoginSteps(View(), name, hostKnown, now);
      if !stopped {
        SetAttempted();
      }
      NextCut(c, done, FinishLogin, []);
      NoActs(View());
    }
  }
}
