/** The Eventloop class: its fields, updated in place, and evloop_run as the nested loop it is. */
module EventLoop {
  import opened Registry
  import opened Dispatch

  lemma {:induction false} WithoutSnoc(s: seq<Fd>, x: Fd, fd: Fd)
    ensures Without(s + [x], fd) == Without(s, fd) + if x == fd then [] else [x]
  {
    if s == [] {
      assert s + [x] == [x] && [x][1..] == [];
    } else {
      assert (s + [x])[1..] == s[1..] + [x];
      WithoutSnoc(s[1..], x, fd);
      var head, last := if s[0] == fd then [] else [s[0]], if x == fd then [] else [x];
      assert head + (Without(s[1..], fd) + last) == head + Without(s[1..], fd) + last;
    }
  }

  class Eventloop {
    var polledFids: map<Fd, Entry>
    var openFds: seq<Fd>
    var shouldStop: bool

    // The kernel's side, and what has happened so far.
    var interest: map<Fd, Node>
    var nextNode: Node
    var takenFds: seq<Fd>
    var closedFds: seq<Fd>
    var log: seq<Item>
    var done: seq<Event>

    ghost function View(): Run
      reads this
    {
      Run(Loop(polledFids, openFds, interest, nextNode, takenFds, closedFds), shouldStop, log, done)
    }

    constructor ()
      ensures View() == BEGIN
    {
      polledFids, openFds, shouldStop := map[], [], false;
      interest, nextNode, takenFds, closedFds, log, done := map[], 0, [], [], [], [];
    }

    method Stop()
      modifies this
      ensures View() == old(View()).(stop := true)
    {
      shouldStop := true;
    }

    /** `willing` is whether epoll_ctl would add a descriptor it does not watch yet. */
    method RegisterFd(ctx: Context, willing: bool)
      modifies this
      ensures View() == old(View()).(loop := Register(old(View().loop), ctx, willing))
    {
      var evFd := ctx.fd;
      if evFd in polledFids {
        polledFids := polledFids[evFd := Entry(polledFids[evFd].node, ctx)];
      } else {
        polledFids := polledFids[evFd := Entry(nextNode, ctx)];
        nextNode := nextNode + 1;
      }
      if !willing || evFd in interest {
        return;
      }
      interest := interest[evFd := polledFids[evFd].node];
      takenFds := takenFds + [evFd];
      openFds := openFds + [ctx.fd];
    }

    method RemoveFd(fd: Fd)
      modifies this
      ensures View() == old(View()).(loop := Remove(old(View().loop), fd))
    {
      if fd in openFds {
        var kept, all := [], openFds;
        for i := 0 to |all|
          modifies {}
          invariant kept == Without(all[..i], fd)
        {
          WithoutSnoc(all[..i], all[i], fd);
          assert all[..i + 1] == all[..i] + [all[i]];
          if all[i] != fd {
            kept := kept + [all[i]];
          }
        }
        assert all[..|all|] == all;
        closedFds := closedFds + [fd];
        interest := interest - {fd};
        polledFids := polledFids - {fd};
        openFds := kept;
      }
    }

    /** A callback or another thread, by what it does to the loop. */
    method Callback(ops: seq<Op>)
      modifies this
      ensures View() == Calls(old(View()), ops)
    {
      for i := 0 to |ops|
        invariant Calls(old(View()), ops) == Calls(View(), ops[i..])
      {
        match ops[i] {
          case Add(ctx, willing) => RegisterFd(ctx, willing);
          case Del(fd) => RemoveFd(fd);
          case Stop => Stop();
        }
        assert ops[i..][1..] == ops[i + 1..];
      }
      assert ops[|ops|..] == [];
    }

    method ProcessEvent(e: Event)
      modifies this
      ensures View() == Dispatch.ProcessEvent(old(View()), e)
    {
      if e.fd !in polledFids || polledFids[e.fd].node != e.node {
        log := log + [Dangling(e.node)];
        return;
      }
      var ctx := polledFids[e.fd].ctx;
      log := log + [Data(e.node, ctx.once)];
      Callback(e.dataOps);
      if ctx.once {
        RemoveFd(ctx.fd);
      }
    }

    /** The body of the for loop of evloop_run. */
    method DispatchEvent(e: Event)
      modifies this
      ensures View() == DispatchOne(old(View()), e)
    {
      Callback(e.before);
      ProcessEvent(e);
      if e.hangup {
        HangUp(e);
      }
      done := done + [e];
    }

    method HangUp(e: Event)
      modifies this
      ensures View() == Dispatch.HangUp(old(View()), e)
    {
      if e.fd !in polledFids || polledFids[e.fd].node != e.node {
        log := log + [Dangling(e.node)];
        return;
      }
      if polledFids[e.fd].ctx.onClosed {
        log := log + [Closed(e.node)];
        Callback(e.closedOps);
      }
      if e.fd !in polledFids || polledFids[e.fd].node != e.node {
        log := log + [Dangling(e.node)];
        return;
      }
      RemoveFd(polledFids[e.fd].ctx.fd);
    }

    /** The for loop of evloop_run over one batch. */
    method DispatchEvents(events: seq<Event>)
      modifies this
      ensures View() == DispatchAll(old(View()), events)
    {
      for i := 0 to |events|
        invariant DispatchAll(old(View()), events) == DispatchAll(View(), events[i..])
      {
        DispatchEvent(events[i]);
        assert events[i..][1..] == events[i + 1..];
      }
      assert events[|events|..] == [];
    }

    /** evloop_run; `waits` is what successive epoll_wait calls return. */
    method EvloopRun(waits: seq<Wait>) returns (exit: Exit)
      modifies this
      ensures (View(), exit) == Dispatch.EvloopRun(old(View()), waits)
    {
      var running, i := true, 0;
      while running && i < |waits|
        invariant 0 <= i <= |waits|
        invariant running ==> Dispatch.EvloopRun(old(View()), waits) == Dispatch.EvloopRun(View(), waits[i..])
        invariant !running ==> Dispatch.EvloopRun(old(View()), waits) == (CloseAll(View()), Stopped)
      {
        ghost var r := View();
        assert waits[i..][0] == waits[i] && waits[i..][1..] == waits[i + 1..];
        Callback(waits[i].others);
        match waits[i] {
          case Batch(_, events) =>
            DispatchEvents(events);
            assert View() == Turn(r, waits[i]).0;
            if shouldStop && events == [] {
              running := false;
            }
          case Interrupted(_) =>
          case Failed(_) =>
            return Fatal;
        }
        i := i + 1;
      }
      if running {
        assert waits[i..] == [];
        return Running;
      }
      CloseOpen();
      exit := Stopped;
    }

    /** The last statement of evloop_run. */
    method CloseOpen()
      modifies this
      ensures View() == CloseAll(old(View()))
    {
      var all := closedFds;
      for i := 0 to |openFds|
        invariant all == closedFds + openFds[..i]
      {
        all := all + [openFds[i]];
      }
      closedFds := all;
    }
  }
}
