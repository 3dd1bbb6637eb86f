/** When the server ends: exactly at the first request it answers with a closed socket still in its list. */
module ProtocolFaults {
  import opened ServerCore
  import opened Protocol
  import opened ProtocolInvariants
  import opened ProtocolLaws

  /** A request can be read from connection `c`. */
  predicate Pending(s: System, c: nat) {
    CanRead(s, c) && s.conns[c].taken < |s.conns[c].inbox|
  }

  predicate ListedClosed(s: System, d: nat) {
    d in s.srv.list && d < |s.conns| && !s.conns[d].open
  }

  ghost predicate HasClosed(s: System) {
    exists d: nat :: ListedClosed(s, d)
  }

  lemma ReadCrashesExactly(s: System, c: nat, now: int, failing: set<nat>)
    requires ServerOk(s) && Pending(s, c)
    ensures DoRead(s, c, now, failing).crashed <==> HasClosed(s)
  {
    ReadEffect(s, c, now, failing);
    hide DoRead, Reply, InSync, Segments, UpToDate, FaultFree, NamesMatch;
    if !HasClosed(s) {
      forall d | d in s.srv.list ensures s.conns[d].open {
        assert !ListedClosed(s, d);
      }
    }
  }

  /** No other step ends the server. */
  lemma OthersKeepRunning(s: System, step: Step)
    requires ListedExist(s) && !(step.ReadRequest? && Pending(s, step.c))
    ensures Apply(s, step).crashed == s.crashed
  {
    hide Broadcast, ExitLoop, Remove, Accept, ReceivedBy;
  }

  /** Over all steps: the server ends exactly when it answers a request with a closed socket in the list. */
  lemma StepCrashesExactly(s: System, step: Step)
    requires ServerOk(s)
    ensures Apply(s, step).crashed <==> s.crashed || (step.ReadRequest? && Pending(s, step.c) && HasClosed(s))
  {
    hide HasClosed, DoRead, ServerOk;
    if step.ReadRequest? && Pending(s, step.c) {
      ReadCrashesExactly(s, step.c, step.now, step.failing);
    } else {
      RunsOn(s);
      OthersKeepRunning(s, step);
    }
  }

  lemma RunsOn(s: System)
    requires ServerOk(s)
    ensures ListedExist(s)
  {
  }

  /** A read error leaves its socket closed in the list, and only "exit" takes a closed socket from it. */
  lemma ErrorLeavesClosed(s: System, d: nat)
    requires ServerOk(s) && CanRead(s, d)
    ensures ListedClosed(DoReadError(s, d), d)
  {
  }

  lemma ClosedStaysListed(s: System, step: Step, d: nat)
    requires ServerOk(s) && ListedClosed(s, d) && step != Stdin("exit")
    ensures ListedClosed(Apply(s, step), d)
  {
    match step
    case ReadRequest(c, now, failing) =>
      if Pending(s, c) {
        ReadEffect(s, c, now, failing);
        assert DoRead(s, c, now, failing).srv.list == s.srv.list;
        hide DoRead, Reply, InSync, Segments, UpToDate, FaultFree, NamesMatch;
      }
    case ReadEnd(c) =>
      WithoutMember(s.srv.list, c, d);
      hide ServerOk;
    case OfClient(k, a) =>
      ClientsOnlyAddRequests(s, k, a);
      hide ServerOk, DoClient;
    case Outsider(c, request) =>
      OutsidersOnlyAddRequests(s, c, request);
      hide ServerOk, DoOutsider;
    case _ => hide ServerOk, ExitLoop;
  }

  /** After one failed `recv`, until "exit", the socket stays closed in the list. */
  lemma {:induction false} ErrorIsNotForgotten(clients: nat, steps: seq<Step>, d: nat, more: seq<Step>)
    requires CanRead(Run(clients, steps), d) && forall i :: 0 <= i < |more| ==> more[i] != Stdin("exit")
    ensures ListedClosed(Run(clients, steps + [ReadError(d)] + more), d)
    decreases |more|
  {
    hide *;
    var all := steps + [ReadError(d)];
    if more == [] {
      assert all + more == all && steps + [] == steps;
      RunAppend(clients, steps, [], ReadError(d));
      InvParts(Run(clients, steps));
      ErrorLeavesClosed(Run(clients, steps), d);
      ErrorIsStep(Run(clients, steps), d);
    } else {
      var (init, step) := (more[..|more| - 1], more[|more| - 1]);
      assert all + init + [step] == all + more;
      ErrorIsNotForgotten(clients, steps, d, init);
      RunAppend(clients, all, init, step);
      InvParts(Run(clients, all + init));
      ClosedStaysListed(Run(clients, all + init), step, d);
    }
  }

  lemma ErrorIsStep(s: System, d: nat)
    requires ServerOk(s)
    ensures ListedExist(s) && Apply(s, ReadError(d)) == DoReadError(s, d)
  {
  }

  /** So the next request that the server answers, whoever makes it, ends the server. */
  lemma OneErrorEndsServer(clients: nat, steps: seq<Step>, d: nat, more: seq<Step>, c: nat, now: int, failing: set<nat>)
    requires CanRead(Run(clients, steps), d) && forall i :: 0 <= i < |more| ==> more[i] != Stdin("exit")
    requires Pending(Run(clients, steps + [ReadError(d)] + more), c)
    ensures Run(clients, steps + [ReadError(d)] + more + [ReadRequest(c, now, failing)]).crashed
  {
    hide Run, Inv, Apply, ListedClosed, Pending;
    var s := Run(clients, steps + [ReadError(d)] + more);
    ErrorIsNotForgotten(clients, steps, d, more);
    InvParts(s);
    RunAppend(clients, steps + [ReadError(d)], more, ReadRequest(c, now, failing));
    assert HasClosed(s);
    StepCrashesExactly(s, ReadRequest(c, now, failing));
  }
}
