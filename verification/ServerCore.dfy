/**
  The server's own state and what its handlers do to it, over any type of socket. The list is
  `_socketList`, `waiting` the waiter's `_sockets`, `names` is `_clientNames`, `active` is `_inActivity`.
 */
module ServerCore {
  import opened Messages

  datatype ServerState<S(==)> = ServerState(list: seq<S>, waiting: set<S>, names: seq<string>, active: bool)

  predicate NoDuplicates<S(==)>(list: seq<S>) {
    forall i, j :: 0 <= i < j < |list| ==> list[i] != list[j]
  }

  /** The two registries hold the same sockets, each once. */
  predicate InSync<S(==)>(st: ServerState<S>) {
    NoDuplicates(st.list) && st.waiting == set x | x in st.list
  }

  /** `std::remove` and `erase`: every occurrence goes, the rest keep their order. */
  function Without<S(==)>(list: seq<S>, x: S): (r: seq<S>)
    ensures x !in r && |r| <= |list| && (x in list ==> |r| < |list|)
  {
    if list == [] then []
    else if list[0] == x then Without(list[1..], x)
    else [list[0]] + Without(list[1..], x)
  }

  lemma {:induction false} WithoutMember<S>(list: seq<S>, x: S, y: S)
    ensures y in Without(list, x) <==> y in list && y != x
  {
    if list != [] {
      WithoutMember(list[1..], x, y);
      assert y in list <==> y == list[0] || y in list[1..];
    }
  }

  function Accept<S(==)>(st: ServerState<S>, x: S): ServerState<S> {
    st.(list := st.list + [x], waiting := st.waiting + {x})
  }

  function Remove<S(==)>(st: ServerState<S>, x: S): ServerState<S> {
    st.(list := Without(st.list, x), waiting := st.waiting - {x})
  }

  lemma {:induction false} WithoutUnique<S>(a: seq<S>, x: S, b: seq<S>)
    requires x !in a && x !in b
    ensures Without(a + [x] + b, x) == a + b
  {
    if a == [] {
      assert (a + [x] + b)[1..] == b && a + b == b;
      WithoutAbsent(b, x);
    } else {
      assert (a + [x] + b)[1..] == a[1..] + [x] + b;
      WithoutUnique(a[1..], x, b);
      assert [a[0]] + (a[1..] + b) == a + b;
    }
  }

  lemma {:induction false} WithoutAbsent<S>(b: seq<S>, x: S)
    requires x !in b
    ensures Without(b, x) == b
  {
    if b != [] {
      WithoutAbsent(b[1..], x);
    }
  }

  lemma {:induction false} WithoutKeepsDistinct<S>(list: seq<S>, x: S)
    requires NoDuplicates(list)
    ensures NoDuplicates(Without(list, x))
  {
    if list != [] {
      WithoutKeepsDistinct(list[1..], x);
      WithoutMember(list[1..], x, list[0]);
      assert list[0] !in list[1..] by {
        assert forall k :: 0 <= k < |list[1..]| ==> list[1..][k] == list[k + 1];
      }
    }
  }

  lemma AcceptKeepsSync<S>(st: ServerState<S>, x: S)
    requires InSync(st) && x !in st.list
    ensures InSync(Accept(st, x))
  {
  }

  lemma RemoveKeepsSync<S>(st: ServerState<S>, x: S)
    requires InSync(st)
    ensures InSync(Remove(st, x))
  {
    WithoutKeepsDistinct(st.list, x);
    var st' := Remove(st, x);
    forall y | y in st'.waiting ensures y in st'.list {
      WithoutMember(st.list, x, y);
    }
    forall y | y in st'.list ensures y in st'.waiting {
      WithoutMember(st.list, x, y);
    }
    assert st'.waiting == set y | y in st'.list;
  }

  // ----- the exit command

  /** Removing element `i` while counting `i` up: what "exit" runs. */
  function ExitLoop<S(==)>(st: ServerState<S>, i: nat): ServerState<S>
    decreases |st.list|
  {
    if i < |st.list| then ExitLoop(Remove(st, st.list[i]), i + 1) else st
  }

  lemma ExitPass<S>(st: ServerState<S>, i: nat)
    ensures ExitLoop(st, i) == if i < |st.list| then ExitLoop(Remove(st, st.list[i]), i + 1) else st
  {
  }

  /** The elements at odd positions, in order. */
  function OddPositions<S>(list: seq<S>): seq<S> {
    if |list| < 2 then [] else [list[1]] + OddPositions(list[2..])
  }

  lemma {:induction false} OddPositionsAre<S>(list: seq<S>)
    ensures |OddPositions(list)| == |list| / 2
    ensures forall j :: 0 <= j < |list| / 2 ==> OddPositions(list)[j] == list[2 * j + 1]
  {
    if |list| >= 2 {
      OddPositionsAre(list[2..]);
      forall j | 0 <= j < |list| / 2 ensures OddPositions(list)[j] == list[2 * j + 1] {
        if j > 0 {
          assert OddPositions(list)[j] == OddPositions(list[2..])[j - 1] == list[2..][2 * (j - 1) + 1];
        }
      }
    }
  }

  /** One pass of the loop body over a list split at the index. */
  lemma ExitStep<S>(st: ServerState<S>, done: seq<S>, rest: seq<S>)
    requires InSync(st) && st.list == done + rest && rest != []
    ensures Remove(st, rest[0]).list == done + rest[1..] && InSync(Remove(st, rest[0]))
  {
    RemoveKeepsSync(st, rest[0]);
    assert done + rest == done + [rest[0]] + rest[1..];
    forall k | 0 <= k < |done| ensures done[k] != rest[0] {
      assert st.list[k] != st.list[|done|];
    }
    forall k | 0 <= k < |rest[1..]| ensures rest[1..][k] != rest[0] {
      assert st.list[|done|] != st.list[|done| + 1 + k];
    }
    WithoutUnique(done, rest[0], rest[1..]);
  }

  lemma {:induction false} ExitLoopFrom<S>(st: ServerState<S>, done: seq<S>, rest: seq<S>)
    requires InSync(st) && st.list == done + rest
    ensures ExitLoop(st, |done|).list == done + OddPositions(rest) && InSync(ExitLoop(st, |done|))
    ensures ExitLoop(st, |done|).names == st.names && ExitLoop(st, |done|).active == st.active
    decreases |rest|
  {
    hide InSync, NoDuplicates, Without;
    if rest == [] {
      assert done + OddPositions(rest) == done;
    } else {
      assert st.list[|done|] == rest[0];
      ExitStep(st, done, rest);
      var st' := Remove(st, rest[0]);
      if |rest| == 1 {
        assert ExitLoop(st', |done| + 1) == st';
      } else {
        assert st'.list == (done + [rest[1]]) + rest[2..];
        ExitLoopFrom(st', done + [rest[1]], rest[2..]);
        assert done + [rest[1]] + OddPositions(rest[2..]) == done + OddPositions(rest);
      }
    }
  }

  lemma {:induction false} ExitLoopShrinks<S>(st: ServerState<S>, i: nat)
    ensures ExitLoop(st, i).waiting <= st.waiting
    decreases |st.list|
  {
    if i < |st.list| {
      ExitLoopShrinks(Remove(st, st.list[i]), i + 1);
    }
  }

  /** "exit" drops the sockets at even positions and keeps the others, in both registries. */
  lemma ExitKeepsOddPositions<S>(st: ServerState<S>)
    requires InSync(st)
    ensures var st' := ExitLoop(st, 0);
            && InSync(st') && st'.list == OddPositions(st.list) && st'.waiting == set x | x in OddPositions(st.list)
            && |st'.list| == |st.list| / 2
            && (forall j :: 0 <= j < |st.list| / 2 ==> st'.list[j] == st.list[2 * j + 1])
            && (st'.list == [] <==> |st.list| <= 1)
  {
    assert st.list == [] + st.list;
    ExitLoopFrom(st, [], st.list);
    assert [] + OddPositions(st.list) == OddPositions(st.list);
    OddPositionsAre(st.list);
  }

  // ----- requests and replies

  const USER_NAME_IN_USE := 1
  const MALFORMED_REQUEST_NO_TYPE := 201

  const IN_USE_TEXT := "You dun goofed. Username is in use. (Server Error)"
  const BAD_TAG_TEXT := "Invalid object type tag specified"

  /** The reply to a request: `visitLogin`, `visitMessage`, or the visitor's error for other types. */
  function Reply(names: seq<string>, request: Instance, now: int): Instance {
    match request
    case LoginRequest(_, from) =>
      if from in names then ErrorResponse(now, SERVER_SENDER, SERVER_SENDER, USER_NAME_IN_USE, IN_USE_TEXT)
      else LoginResponse(now, SERVER_SENDER, from)
    case MessageRequest(_, from, content) => MessageResponse(now, SERVER_SENDER, from, content)
    case _ => ErrorResponse(now, SERVER_SENDER, UNKNOWN_SENDER, MALFORMED_REQUEST_NO_TYPE, BAD_TAG_TEXT)
  }

  function NamesAfter(names: seq<string>, request: Instance): seq<string> {
    if request.LoginRequest? && request.from !in names then names + [request.from] else names
  }

  /** The joining user names of the login responses, in order. */
  function LoginNames(log: seq<Instance>): seq<string> {
    if log == [] then []
    else LoginNames(log[..|log| - 1])
         + (if log[|log| - 1].LoginResponse? then [log[|log| - 1].username] else [])
  }

  predicate IsLogin(m: Instance, user: string) {
    m.LoginResponse? && m.username == user
  }

  predicate LoginIn(log: seq<Instance>, user: string) {
    exists i :: 0 <= i < |log| && IsLogin(log[i], user)
  }

  lemma {:induction false} LoginNamesAre(log: seq<Instance>, user: string)
    ensures user in LoginNames(log) <==> LoginIn(log, user)
  {
    if log != [] {
      var (init, last) := (log[..|log| - 1], log[|log| - 1]);
      LoginNamesAre(init, user);
      if LoginIn(init, user) {
        var i :| 0 <= i < |init| && IsLogin(init[i], user);
        assert IsLogin(log[i], user);
      }
      if LoginIn(log, user) && !IsLogin(last, user) {
        var i :| 0 <= i < |log| && IsLogin(log[i], user);
        assert IsLogin(init[i], user);
      }
    }
  }

  /** No two login responses name the same user. */
  predicate LoginsUnique(log: seq<Instance>) {
    forall i, j :: 0 <= i < j < |log| && log[i].LoginResponse? && log[j].LoginResponse? ==>
      log[i].username != log[j].username
  }

  lemma {:induction false} DistinctNamesUniqueLogins(log: seq<Instance>)
    requires NoDuplicates(LoginNames(log))
    ensures LoginsUnique(log)
  {
    if log != [] {
      var (init, last) := (log[..|log| - 1], log[|log| - 1]);
      var names := LoginNames(init);
      assert NoDuplicates(names) by {
        assert forall i :: 0 <= i < |names| ==> names[i] == LoginNames(log)[i];
      }
      DistinctNamesUniqueLogins(init);
      forall i | 0 <= i < |init| && last.LoginResponse? && init[i].LoginResponse?
        ensures init[i].username != last.username
      {
        LoginNamesAre(init, init[i].username);
        assert IsLogin(init[i], init[i].username);
        forall k | 0 <= k < |names| ensures names[k] != last.username {
          assert LoginNames(log)[k] != LoginNames(log)[|names|];
        }
      }
      assert forall i :: 0 <= i < |init| ==> log[i] == init[i];
    }
  }
}
