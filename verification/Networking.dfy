/**
  Sockets and the waiter that watches them. What the operating system answers is passed in: the result
  of `recv`, whether a `write` succeeds, and which descriptors `select` reports.
 */
module Networking {
  import opened Wrappers
  import opened Messages

  /** What `recv` gives: text, as the tree it parses to if it is JSON at all, the end, or an error. */
  datatype Recv = Data(json: Option<Tree>) | EndOfStream | RecvError

  datatype WriteResult = Written | WriteFailed | WriteThrew

  class Socket {
    const fd: int
    var open: bool
    /** The messages written so far; one JSON text each. */
    var sent: seq<Instance>

    constructor (fd: int)
      ensures this.fd == fd && open && sent == []
    {
      this.fd := fd;
      open := true;
      sent := [];
    }

    /** Reading from a closed socket is an error; an error and the end of the stream both close it. */
    method Read(incoming: Recv) returns (r: Recv)
      modifies this`open
      ensures r == if old(open) then incoming else RecvError
      ensures open == (old(open) && r.Data?)
    {
      if !open {
        return RecvError;
      }
      if incoming.RecvError? {
        open := false;
      } else if incoming.EndOfStream? {
        open := false;
      }
      return incoming;
    }

    /** Writing to a closed socket throws; a failed write closes it. */
    method Write(m: Instance, succeeds: bool) returns (r: WriteResult)
      modifies this`open, this`sent
      ensures r == if !old(open) then WriteThrew else if succeeds then Written else WriteFailed
      ensures open == (old(open) && succeeds)
      ensures sent == if r.Written? then old(sent) + [m] else old(sent)
    {
      if !open {
        return WriteThrew;
      }
      if !succeeds {
        open := false;
        return WriteFailed;
      }
      sent := sent + [m];
      return Written;
    }

    method Close()
      modifies this`open
      ensures !open
    {
      if open {
        open := false;
      }
    }
  }

  /** What `select` returns; the descriptors count only as far as they were watched. */
  datatype Selected = SelectFailed | TimedOut | Ready(fds: set<int>)

  /** The one thing a wait leads to. */
  datatype Call = NoCall | WaitThrew | OnStdin(line: string) | OnSocketServer | OnSocket(child: Socket)

  const STDIN_FD := 0

  /** The number that `kill` writes. */
  const KILL_SIGNAL: nat := 9

  predicate DistinctFds(sockets: set<Socket>) {
    forall a, b :: a in sockets && b in sockets && a.fd == b.fd ==> a == b
  }

  class FlexWaiter {
    const master: Option<int>
    var sockets: set<Socket>
    var killEventFd: int
    /** The counter of the kill event. */
    var signals: nat

    constructor (master: Option<int>)
      ensures this.master == master && sockets == {} && killEventFd == -1 && signals == 0
    {
      this.master := master;
      sockets := {};
      killEventFd := -1;
      signals := 0;
    }

    method AddSocket(s: Socket)
      modifies this`sockets
      ensures sockets == old(sockets) + {s}
    {
      sockets := sockets + {s};
    }

    method RemoveSocket(s: Socket)
      modifies this`sockets
      ensures sockets == old(sockets) - {s}
    {
      if s in sockets {
        sockets := sockets - {s};
      }
    }

    /** Adds to the counter of the kill event, once the first wait has made one; before that it does nothing. */
    method Kill()
      modifies this`signals
      ensures signals == old(signals) + (if killEventFd >= 0 then KILL_SIGNAL else 0)
    {
      if killEventFd >= 0 {
        signals := signals + KILL_SIGNAL;
      }
    }

    /** Standard input, the master and the open sockets. */
    ghost function Watched(): set<int>
      reads this, sockets
    {
      {STDIN_FD} + (if master.Some? then {master.value} else {}) + set s | s in sockets && s.open :: s.fd
    }

    /** The set given to `select`, and a bound on every descriptor in it. */
    method WatchSet() returns (fds: set<int>, maxFd: int)
      requires master.Some? ==> master.value >= 0
      ensures fds == Watched()
      ensures maxFd in fds && forall fd :: fd in fds ==> fd <= maxFd
    {
      fds := {STDIN_FD};
      maxFd := STDIN_FD;
      if master.Some? {
        maxFd := master.value;
        fds := fds + {master.value};
      }
      var rest := sockets;
      while rest != {}
        invariant rest <= sockets
        invariant fds == {STDIN_FD} + (if master.Some? then {master.value} else {})
                         + set s | s in sockets - rest && s.open :: s.fd
        invariant maxFd in fds && forall fd :: fd in fds ==> fd <= maxFd
        decreases rest
      {
        var s :| s in rest;
        rest := rest - {s};
        if s.open {
          maxFd := if maxFd < s.fd then s.fd else maxFd;
          fds := fds + {s.fd};
        }
      }
    }

    /**
      The first registered socket, in the set's own order, whose descriptor is ready. The ones after it, here
      `unseen`, are never looked at: the iteration is over before the handler can change the set.
     */
    method FindReady(fds: set<int>) returns (child: Option<Socket>, ghost unseen: set<Socket>)
      ensures child.Some? ==> child.value in sockets && child.value.fd in fds
      ensures child.Some? ==> unseen <= sockets - {child.value}
      ensures child.Some? ==> forall s :: s in sockets - unseen && s != child.value ==> s.fd !in fds
      ensures child.None? ==> forall s :: s in sockets ==> s.fd !in fds
    {
      var rest := sockets;
      while rest != {}
        invariant rest <= sockets
        invariant forall s :: s in sockets - rest ==> s.fd !in fds
        decreases rest
      {
        var s :| s in rest;
        rest := rest - {s};
        if s.fd in fds {
          return Some(s), rest;
        }
      }
      return None, {};
    }

    /** The ready descriptors among those watched, the kill event's included. */
    ghost function Reported(selected: Selected): set<int>
      reads this, sockets
    {
      if selected.Ready? then selected.fds * (Watched() + {killEventFd}) else {}
    }

    /**
      One wait. `newEvent` is what `eventfd` returns if it is called, `killBytes` how much reading the kill
      event yields, `line` the text on standard input or nothing if reading it fails.
     */
    method Wait(newEvent: int, selected: Selected, killBytes: nat, line: Option<string>) returns (call: Call)
      requires master.Some? ==> master.value >= 0
      modifies this`killEventFd, this`signals
      ensures killEventFd == if old(killEventFd) == -1 then newEvent else old(killEventFd)
      ensures killEventFd == -1 || selected.SelectFailed? ==> call == WaitThrew
      ensures killEventFd != -1 && !selected.SelectFailed? ==>
                var ready := Reported(selected);
                if killEventFd in ready then call == if killBytes == 0 || killBytes == 8 then NoCall else WaitThrew
                else if STDIN_FD in ready then call == if line.Some? then OnStdin(Stripped(line.value)) else WaitThrew
                else if master.Some? && master.value in ready then call == OnSocketServer
                else if exists s :: s in sockets && s.fd in ready then call.OnSocket?
                else call == NoCall
      ensures signals == if killEventFd != -1 && killEventFd in Reported(selected) && killBytes == 8 then 0 else old(signals)
      ensures call.OnStdin? ==>
                line == Some(call.line + "\n")
                || (line == Some(call.line) && (call.line == "" || call.line[|call.line| - 1] != '\n'))
      ensures call.OnSocket? ==> call.child in sockets && call.child.fd in Reported(selected)
      ensures call.OnSocket? && DistinctFds(sockets) ==> call.child.open
    {
      var fds, maxFd := WatchSet();
      if killEventFd == -1 {
        killEventFd := newEvent;
        if newEvent == -1 {
          return WaitThrew;
        }
      }
      fds := fds + {killEventFd};
      maxFd := if maxFd < killEventFd then killEventFd else maxFd;
      assert forall fd :: fd in fds ==> fd <= maxFd;
      match selected {
        case SelectFailed => return WaitThrew;
        case TimedOut => return NoCall;
        case Ready(some) =>
          fds := some * fds;
          assert fds == Reported(selected);
          if killEventFd in fds {
            if killBytes == 8 {
              signals := 0;
            }
            return if killBytes > 0 && killBytes != 8 then WaitThrew else NoCall;
          } else if STDIN_FD in fds {
            if line.None? {
              return WaitThrew;
            }
            StrippedBack(line.value);
            return OnStdin(Stripped(line.value));
          } else if master.Some? && master.value in fds {
            return OnSocketServer;
          }
          var child, _ := FindReady(fds);
          if child.Some? {
            ReadyIsOpen(fds, child.value);
            return OnSocket(child.value);
          }
          return NoCall;
      }
    }

    /** A ready descriptor that is none of the special ones belongs to an open socket, and to one only. */
    lemma ReadyIsOpen(fds: set<int>, child: Socket)
      requires fds <= Watched() + {killEventFd} && killEventFd !in fds && STDIN_FD !in fds
      requires master.Some? ==> master.value !in fds
      requires child in sockets && child.fd in fds
      ensures DistinctFds(sockets) ==> child.open
    {
      assert child.fd in set s | s in sockets && s.open :: s.fd;
    }
  }

  /** One newline at the end goes, and nothing else. */
  lemma StrippedOnce(t: string)
    ensures Stripped(t + "\n") == t
    ensures t == "" || t[|t| - 1] != '\n' ==> Stripped(t) == t
  {
  }

  lemma StrippedBack(line: string)
    ensures line == Stripped(line) + "\n"
            || (line == Stripped(line) && (line == "" || line[|line| - 1] != '\n'))
  {
    if line != [] && line[|line| - 1] == '\n' {
      assert line == line[..|line| - 1] + "\n";
    }
  }

  /** A line without its final newline. */
  function Stripped(line: string): string {
    if line != [] && line[|line| - 1] == '\n' then line[..|line| - 1] else line
  }
}
