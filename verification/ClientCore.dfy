/**
  One chat client: the UI thread's `login` and `onMsgSend`, the queue of background send tasks, and the
  reader thread. `login` and `visitLogin` are cut where the other thread can come in between.
 */
module ClientCore {
  import opened Wrappers
  import opened Messages
  import opened ServerCore

  datatype UiState = NoConnection | HasConnection | AttemptedLogin | IsLoggedIn

  /** Where the UI thread stands inside `login`: the line it is about to run, or outside. */
  datatype LoginPc = Outside | At109 | At110 | At125 | At126

  /** The reader thread; while `Connecting`, and for good if connecting failed, it holds the socket lock. */
  datatype Reader = NotStarted | Started | Connecting | Running | Failed

  /** A reply the reader has taken, and whether the login check of `visitLogin` is behind it. */
  datatype Handling = Nothing | Taken(reply: Instance) | Checked(reply: Instance)

  datatype Client = Client(
    state: UiState, user: string, pc: LoginPc,
    reader: Reader, conn: Option<nat>, pending: seq<Instance>,
    seen: nat, handling: Handling, shown: seq<Instance>, stopped: bool)

  const FRESH := Client(NoConnection, [], Outside, NotStarted, None, [], 0, Nothing, [], false)

  // ----- the UI thread

  /** Lines 99-107. */
  function LoginStart(c: Client, user: string): Client {
    if c.pc.Outside? && c.state.NoConnection? && |user| >= 3 then c.(user := user, pc := At109) else c
  }

  /** Line 109; an unknown host leaves no connection and the send that follows ends the application. */
  function LoginConnect(c: Client, hostKnown: bool): Client {
    if !c.pc.At109? then c
    else if hostKnown then c.(reader := Started, pc := At110)
    else c.(stopped := true)
  }

  /** Line 110. */
  function LoginConnected(c: Client): Client {
    if c.pc.At110? then c.(state := HasConnection, pc := At125) else c
  }

  /** Lines 124-125. */
  function LoginSend(c: Client, now: int): Client {
    if c.pc.At125? then c.(pending := c.pending + [LoginRequest(now, c.user)], pc := At126) else c
  }

  /** Line 126, whatever the reader has made of the state meanwhile. */
  function LoginFinish(c: Client): Client {
    if c.pc.At126? then c.(state := AttemptedLogin, pc := Outside) else c
  }

  /** `onMsgSend`. */
  function SendMessage(c: Client, now: int, text: string): Client {
    if c.pc.Outside? && c.state.IsLoggedIn? && text != [] then
      c.(pending := c.pending + [MessageRequest(now, c.user, text)])
    else c
  }

  // ----- connection and background sends

  function ReaderLocks(c: Client): Client {
    if c.reader.Started? then c.(reader := Connecting) else c
  }

  function ReaderConnects(c: Client, conn: nat): Client {
    if c.reader.Connecting? then c.(reader := Running, conn := Some(conn)) else c
  }

  function ReaderFails(c: Client): Client {
    if c.reader.Connecting? then c.(reader := Failed) else c
  }

  /** A send task can run: there is one, and the lock is free. */
  predicate SendReady(c: Client) {
    c.pending != [] && (c.reader.Started? || c.reader.Running?)
  }

  /** The first task is over: written, failed with an error, or, without a socket yet, fatal. */
  function SendDone(c: Client): Client
    requires SendReady(c)
  {
    if c.reader.Running? then c.(pending := c.pending[1..]) else c.(stopped := true)
  }

  // ----- the reader thread

  /** The read loop takes the next reply off the socket. */
  function ReaderTakes(c: Client, sent: seq<Instance>): Client {
    if c.reader.Running? && c.handling.Nothing? && c.seen < |sent| then
      c.(seen := c.seen + 1, handling := Taken(sent[c.seen]))
    else c
  }

  /**
    Lines 194-198 for a login, all of `visitMessage` for a message, an exception for anything else. A
    reply that does not decode, as with a timestamp the client cannot read, is an exception too.
   */
  function ReaderChecks(c: Client, decodes: bool): Client {
    if !c.handling.Taken? then c
    else if !decodes then c.(stopped := true)
    else
    match c.handling.reply
    case LoginResponse(_, _, username) =>
      c.(state := if username == c.user then IsLoggedIn else c.state, handling := Checked(c.handling.reply))
    case MessageResponse(_, _, _, _) =>
      c.(shown := if c.state.IsLoggedIn? then c.shown + [c.handling.reply] else c.shown, handling := Nothing)
    case _ => c.(stopped := true)
  }

  /** Lines 199-208. */
  function ReaderShows(c: Client): Client {
    if c.handling.Checked? then
      c.(shown := if c.state.IsLoggedIn? then c.shown + [c.handling.reply] else c.shown, handling := Nothing)
    else c
  }

  // ----- what a client never breaks

  /** Position of the first login response for the user, or the length. */
  function FirstLogin(sent: seq<Instance>, user: string): (f: nat)
    ensures f <= |sent|
    ensures f < |sent| ==> IsLogin(sent[f], user)
    ensures forall i :: 0 <= i < f ==> !IsLogin(sent[i], user)
  {
    if sent == [] then 0
    else if IsLogin(sent[0], user) then 0
    else 1 + FirstLogin(sent[1..], user)
  }

  /** How many replies the login check has been made for. */
  function CheckedCount(c: Client): int {
    if c.handling.Taken? then c.seen - 1 else c.seen
  }

  /** How many replies have been dealt with altogether. */
  function DoneCount(c: Client): int {
    if c.handling.Nothing? then c.seen else c.seen - 1
  }

  /** How far `login` and the reader have got. */
  predicate PhasesOk(c: Client, sent: seq<Instance>) {
    && c.seen <= |sent|
    && (c.conn.Some? <==> c.reader.Running?)
    && (!c.reader.Running? ==> c.seen == 0 && c.handling.Nothing?)
    && (!c.handling.Nothing? ==> c.seen > 0 && c.handling.reply == sent[c.seen - 1])
    && (c.handling.Checked? ==> c.handling.reply.LoginResponse?)
    && (c.reader.NotStarted? ==> c.state.NoConnection? && (c.pc.Outside? || c.pc.At109?) && c.pending == [])
    && (!c.reader.NotStarted? ==> !c.pc.At109? && (c.pc.At110? || !c.state.NoConnection?))
  }

  /**
    What is shown is a contiguous piece of the replies that starts at the first login response bearing the client's name;
    while the client is logged in the piece reaches up to the reply in hand. Here `f` is the position of
    that response, `checked` and `done` count the replies checked and dealt with.
   */
  predicate Shows(sent: seq<Instance>, f: int, checked: int, done: int, loggedIn: bool, shown: seq<Instance>) {
    && (checked <= f ==> !loggedIn && shown == [])
    && (f < checked ==> 0 <= f && f + |shown| <= done <= |sent| && shown == sent[f..f + |shown|])
    && (f < checked && loggedIn ==> f + |shown| == done)
  }

  predicate DisplayOk(c: Client, sent: seq<Instance>) {
    Shows(sent, FirstLogin(sent, c.user), CheckedCount(c), DoneCount(c), c.state.IsLoggedIn?, c.shown)
  }

  predicate ClientOk(c: Client, sent: seq<Instance>) {
    PhasesOk(c, sent) && DisplayOk(c, sent)
  }

  /** A login response bearing the client's name is behind it, and yet it is not logged in. */
  predicate LockedOut(c: Client, sent: seq<Instance>) {
    FirstLogin(sent, c.user) < CheckedCount(c) && !c.state.IsLoggedIn?
  }

  lemma FirstLoginIs(sent: seq<Instance>, user: string, f: nat)
    requires f < |sent| && IsLogin(sent[f], user) && forall i :: 0 <= i < f ==> !IsLogin(sent[i], user)
    ensures FirstLogin(sent, user) == f
  {
  }

  /** More replies arriving change nothing for what has been seen. */
  lemma MoreReplies(c: Client, sent: seq<Instance>, more: seq<Instance>)
    requires ClientOk(c, sent)
    ensures ClientOk(c, sent + more)
    ensures LockedOut(c, sent) <==> LockedOut(c, sent + more)
  {
    var f := FirstLogin(sent, c.user);
    var s := sent + more;
    if f < |sent| {
      FirstLoginIs(s, c.user, f);
      if f < CheckedCount(c) {
        assert s[f..f + |c.shown|] == sent[f..f + |c.shown|];
      }
    } else {
      assert forall i :: 0 <= i < |sent| ==> s[i] == sent[i];
    }
  }

  // ----- all the steps together

  datatype Action =
    | StartLogin(user: string) | Connect(hostKnown: bool) | Connected | SendLogin(loginTime: int) | FinishLogin
    | Type(now: int, text: string)
    | TakeLock | OpenSocket(conn: nat) | FailToOpen | RunSendTask | FailSendTask
    | TakeReply | CheckReply(decodes: bool) | ShowReply
    | Leave

  /** One step of one thread of a running client whose socket has received `sent`. */
  function Act(c: Client, a: Action, sent: seq<Instance>): Client {
    if c.stopped then c else
    match a
    case StartLogin(user) => LoginStart(c, user)
    case Connect(hostKnown) => LoginConnect(c, hostKnown)
    case Connected => LoginConnected(c)
    case SendLogin(now) => LoginSend(c, now)
    case FinishLogin => LoginFinish(c)
    case Type(now, text) => SendMessage(c, now, text)
    case TakeLock => ReaderLocks(c)
    case OpenSocket(conn) => ReaderConnects(c, conn)
    case FailToOpen => ReaderFails(c)
    case RunSendTask => if SendReady(c) then SendDone(c) else c
    case FailSendTask => if SendReady(c) then SendDone(c) else c
    case TakeReply => ReaderTakes(c, sent)
    case CheckReply(decodes) => ReaderChecks(c, decodes)
    case ShowReply => ReaderShows(c)
    case Leave => c.(stopped := true)
  }

  lemma PhasesKept(c: Client, a: Action, sent: seq<Instance>)
    requires PhasesOk(c, sent)
    ensures PhasesOk(Act(c, a, sent), sent)
  {
  }

  /** Showing the next reply extends the piece by one. */
  lemma ShowsNext(sent: seq<Instance>, f: int, k: nat, shown: seq<Instance>)
    requires k < |sent| && 0 <= f <= k && f + |shown| == k && shown == sent[f..k]
    ensures shown + [sent[k]] == sent[f..k + 1]
  {
  }

  /** A login response bearing the name is the only one there will be. */
  lemma NamedLoginOnce(sent: seq<Instance>, user: string, k: nat)
    requires LoginsUnique(sent) && k < |sent| && IsLogin(sent[k], user)
    ensures FirstLogin(sent, user) == k
  {
    var f := FirstLogin(sent, user);
    hide FirstLogin;
    assert f <= k;
    assert !(f < k);
  }

  lemma CheckLogin(c: Client, decodes: bool, sent: seq<Instance>)
    requires ClientOk(c, sent) && LoginsUnique(sent) && c.handling.Taken? && c.handling.reply.LoginResponse?
    ensures DisplayOk(ReaderChecks(c, decodes), sent)
    ensures LockedOut(c, sent) ==> LockedOut(ReaderChecks(c, decodes), sent) && ReaderChecks(c, decodes).shown == c.shown
  {
    hide FirstLogin, LoginsUnique;
    var k := c.seen - 1;
    if c.handling.reply.username == c.user {
      NamedLoginOnce(sent, c.user, k);
      assert sent[k..k] == [];
    }
  }

  lemma CheckMessage(c: Client, decodes: bool, sent: seq<Instance>)
    requires ClientOk(c, sent) && c.handling.Taken? && !c.handling.reply.LoginResponse?
    ensures DisplayOk(ReaderChecks(c, decodes), sent)
    ensures LockedOut(c, sent) ==> LockedOut(ReaderChecks(c, decodes), sent) && ReaderChecks(c, decodes).shown == c.shown
  {
    hide FirstLogin;
    if c.state.IsLoggedIn? {
      ShowsNext(sent, FirstLogin(sent, c.user), c.seen - 1, c.shown);
    }
  }

  /** The check of a reply: a login bearing the client's name can only be the first one, as there is no second. */
  lemma CheckKeepsDisplay(c: Client, decodes: bool, sent: seq<Instance>)
    requires ClientOk(c, sent) && LoginsUnique(sent) && c.handling.Taken?
    ensures DisplayOk(ReaderChecks(c, decodes), sent)
    ensures LockedOut(c, sent) ==> LockedOut(ReaderChecks(c, decodes), sent) && ReaderChecks(c, decodes).shown == c.shown
  {
    hide *;
    if c.handling.reply.LoginResponse? {
      CheckLogin(c, decodes, sent);
    } else {
      CheckMessage(c, decodes, sent);
    }
  }

  lemma ShowKeepsDisplay(c: Client, sent: seq<Instance>)
    requires ClientOk(c, sent) && c.handling.Checked?
    ensures DisplayOk(ReaderShows(c), sent)
  {
    hide FirstLogin;
    if c.state.IsLoggedIn? {
      ShowsNext(sent, FirstLogin(sent, c.user), c.seen - 1, c.shown);
    }
  }

  /** All other steps at most leave the logged-in state. */
  lemma OthersKeepDisplay(c: Client, a: Action, sent: seq<Instance>)
    requires ClientOk(c, sent) && !a.CheckReply? && !a.ShowReply? && !a.StartLogin?
    ensures DisplayOk(Act(c, a, sent), sent)
  {
    hide FirstLogin;
  }

  lemma StartKeepsDisplay(c: Client, user: string, sent: seq<Instance>)
    requires ClientOk(c, sent)
    ensures DisplayOk(LoginStart(c, user), sent)
  {
    hide FirstLogin;
  }

  /** Every step of either thread keeps the client consistent, the race of line 126 included. */
  lemma ActKeepsClient(c: Client, a: Action, sent: seq<Instance>)
    requires ClientOk(c, sent) && LoginsUnique(sent)
    ensures ClientOk(Act(c, a, sent), sent)
  {
    PhasesKept(c, a, sent);
    hide PhasesOk, FirstLogin, LoginsUnique, Shows, DisplayOk;
    match a
    case CheckReply(decodes) =>
      if c.handling.Taken? {
        CheckKeepsDisplay(c, decodes, sent);
      }
    case ShowReply =>
      if c.handling.Checked? {
        ShowKeepsDisplay(c, sent);
      }
    case StartLogin(user) => StartKeepsDisplay(c, user, sent);
    case _ => OthersKeepDisplay(c, a, sent);
  }

  /** A client that is locked out stays so: it never logs in again and shows nothing more. */
  lemma LockedOutForGood(c: Client, a: Action, sent: seq<Instance>)
    requires ClientOk(c, sent) && LoginsUnique(sent) && LockedOut(c, sent)
    ensures var c' := Act(c, a, sent);
            LockedOut(c', sent) && c'.shown == c.shown && c'.user == c.user
  {
    if a.CheckReply? && c.handling.Taken? {
      CheckKeepsDisplay(c, a.decodes, sent);
      hide PhasesOk, Shows;
    }
    hide FirstLogin, LoginsUnique;
  }

  /** An error reply ends a client, logged in or not, and so does one that does not decode; nothing is shown of either. */
  lemma BadReplyStops(c: Client, decodes: bool, sent: seq<Instance>)
    requires !c.stopped && c.handling.Taken?
    ensures Act(c, CheckReply(decodes), sent).stopped <==>
            !decodes || !(c.handling.reply.LoginResponse? || c.handling.reply.MessageResponse?)
    ensures Act(c, CheckReply(decodes), sent).stopped ==>
              Act(c, CheckReply(decodes), sent) == c.(stopped := true)
  {
  }

  /**
    After `login` has returned the question is settled: no step locks a client out that is not, and none
    lets one back in that is.
   */
  lemma LockOutIsSettled(c: Client, a: Action, sent: seq<Instance>)
    requires ClientOk(c, sent) && LoginsUnique(sent) && c.pc.Outside? && !c.reader.NotStarted?
    ensures var c' := Act(c, a, sent);
            && (LockedOut(c', sent) <==> LockedOut(c, sent))
            && c'.pc.Outside? && !c'.reader.NotStarted? && c'.user == c.user
  {
    if a.CheckReply? && c.handling.Taken? {
      CheckKeepsDisplay(c, a.decodes, sent);
      if a.decodes && IsLogin(c.handling.reply, c.user) {
        NamedLoginOnce(sent, c.user, c.seen - 1);
      }
      NamedLoginInHand(c, sent);
    }
    hide FirstLogin, LoginsUnique, DisplayOk;
  }

  /** A reply in hand that is not the client's login is not the first login. */
  lemma NamedLoginInHand(c: Client, sent: seq<Instance>)
    requires PhasesOk(c, sent) && c.handling.Taken?
    ensures FirstLogin(sent, c.user) == c.seen - 1 ==> IsLogin(c.handling.reply, c.user)
  {
  }

  /**
    The lock-out happens: the reader handles a login response bearing the client's name before line 126 runs, and
    line 126 then overwrites the state.
   */
  lemma OverwriteExample(user: string, reply: Instance)
    requires |user| >= 3 && IsLogin(reply, user)
    ensures var c1 := LoginSend(LoginConnected(LoginConnect(LoginStart(FRESH, user), true)), 0);
            var c2 := SendDone(ReaderConnects(ReaderLocks(c1), 0));
            var c3 := ReaderChecks(ReaderTakes(c2, [reply]), true);
            c3.state.IsLoggedIn? && LockedOut(LoginFinish(c3), [reply])
  {
    FirstLoginIs([reply], user, 0);
  }

  /** One reply all the way through the reader: it is shown exactly if the client is logged in by then. */
  lemma ReplyThrough(c: Client, sent: seq<Instance>)
    requires !c.stopped && c.reader.Running? && c.handling.Nothing? && c.seen < |sent|
    requires sent[c.seen].LoginResponse? || sent[c.seen].MessageResponse?
    ensures var c' := Act(Act(Act(c, TakeReply, sent), CheckReply(true), sent), ShowReply, sent);
            && !c'.stopped && c'.handling.Nothing? && c'.seen == c.seen + 1
            && c'.state == (if IsLogin(sent[c.seen], c.user) then IsLoggedIn else c.state)
            && c'.shown == c.shown + (if c'.state.IsLoggedIn? then [sent[c.seen]] else [])
  {
  }

  /** A new client's `login` with nothing in between, then its reader and its send task. */
  lemma LoginThrough(user: string, now: int, conn: nat)
    requires |user| >= 3
    ensures var c := Act(Act(Act(Act(Act(FRESH, StartLogin(user), []), Connect(true), []), Connected, []),
                             SendLogin(now), []), FinishLogin, []);
            && c.state.AttemptedLogin? && c.user == user && !c.stopped && c.reader.Started?
            && c.pending == [LoginRequest(now, user)]
            && Act(c, RunSendTask, []).stopped
            && var c' := Act(Act(c, TakeLock, []), OpenSocket(conn), []);
            c'.reader.Running? && c'.conn == Some(conn) && Act(c', RunSendTask, []) == c'.(pending := [])
  {
  }
}
