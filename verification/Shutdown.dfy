/** How evloop_run ends. */
module Shutdown {
  import opened Registry
  import opened Dispatch

  function EventsOf(ws: seq<Wait>): seq<Event> {
    if ws == [] then []
    else (if ws[0].Batch? then ws[0].events else []) + EventsOf(ws[1..])
  }

  lemma DispatchOneDone(r: Run, e: Event)
    ensures DispatchOne(r, e).done == r.done + [e]
    ensures r.stop ==> DispatchOne(r, e).stop
  {
    var r0 := Calls(r, e.before);
    CallsStop(r, e.before);
    if Live(r0.loop, e) {
      CallsStop(Note(r0, Data(e.node, r0.loop.polled[e.fd].ctx.once)), e.dataOps);
    }
    CallsStop(Note(ProcessEvent(r0, e), Closed(e.node)), e.closedOps);
  }

  lemma {:induction false} CallsStop(r: Run, ops: seq<Op>)
    ensures Calls(r, ops).done == r.done && (r.stop ==> Calls(r, ops).stop)
    decreases |ops|
  {
    if ops != [] {
      CallsStop(r.(loop := Apply(r.loop, ops[0]), stop := r.stop || ops[0].Stop?), ops[1..]);
    }
  }

  /** A batch is dispatched whole, each event once and in the order epoll gave, whatever the handlers do. */
  lemma {:induction false} BatchDispatched(r: Run, es: seq<Event>)
    ensures var r' := DispatchAll(r, es); r'.done == r.done + es && (r.stop ==> r'.stop)
    decreases |es|
  {
    if es == [] {
      assert r.done + es == r.done;
    } else {
      DispatchOneDone(r, es[0]);
      BatchDispatched(DispatchOne(r, es[0]), es[1..]);
      assert es == [es[0]] + es[1..];
    }
  }

  lemma TurnDispatches(r: Run, w: Wait)
    ensures var (r', x) := Turn(r, w);
            && r'.done == r.done + EventsOf([w])
            && (r.stop ==> r'.stop)
            && (x.Stopped? <==> r'.stop && w.Batch? && w.events == [])
            && (x.Fatal? <==> w.Failed?)
  {
    assert [w][1..] == [];
    CallsStop(r, w.others);
    if w.Batch? {
      BatchDispatched(Calls(r, w.others), w.events);
      assert EventsOf([w]) == w.events + [] == w.events;
    } else {
      assert EventsOf([w]) == [] + [] && r.done + [] == r.done;
    }
  }

  lemma EventsOfCons(w: Wait, ws: seq<Wait>)
    ensures EventsOf([w] + ws) == EventsOf([w]) + EventsOf(ws)
  {
  }

  lemma MoreWaits(done: seq<Event>, ws: seq<Wait>, k: nat)
    requires k < |ws|
    ensures done + EventsOf([ws[0]]) + EventsOf(ws[1..][..k]) == done + EventsOf(ws[..k + 1])
  {
    EventsOfCons(ws[0], ws[1..][..k]);
    assert ws[..k + 1] == [ws[0]] + ws[1..][..k];
  }

  /** Every event any wait returned has been dispatched, once and in order: of all the waits when the loop
      still runs, of the waits up to an empty one after stop() when it has ended regularly, and of those up
      to a failed one otherwise. */
  lemma {:induction false} EveryEventDispatched(r: Run, ws: seq<Wait>) returns (k: nat)
    ensures k <= |ws|
    ensures var (r', x) := EvloopRun(r, ws);
            && r'.done == r.done + EventsOf(ws[..k])
            && (x.Running? ==> k == |ws|)
            && (x.Stopped? ==> k > 0 && ws[k - 1].Batch? && ws[k - 1].events == [] && r'.stop)
            && (x.Fatal? ==> k > 0 && ws[k - 1].Failed?)
            && (forall i | 0 <= i < k - 1 :: !ws[i].Failed?)
    decreases |ws|
  {
    if ws == [] {
      k := 0;
      assert r.done + [] == r.done;
    } else {
      TurnDispatches(r, ws[0]);
      var (r', x) := Turn(r, ws[0]);
      if x.Running? {
        k := EveryEventDispatched(r', ws[1..]);
        MoreWaits(r.done, ws, k);
        k := k + 1;
      } else {
        k := 1;
        assert ws[..1] == [ws[0]];
      }
    }
  }

  /** Once stopped, the loop goes on exactly as long as waits bring events or are interrupted, and ends at the
      first empty one. */
  lemma {:induction false} EndsAtFirstEmptyWait(r: Run, ws: seq<Wait>, k: nat)
    requires r.stop && k < |ws|
    requires forall i | 0 <= i < k :: !ws[i].Failed? && (ws[i].Batch? ==> ws[i].events != [])
    requires ws[k].Batch? && ws[k].events == []
    ensures var (r', x) := EvloopRun(r, ws);
            x.Stopped? && r'.done == r.done + EventsOf(ws[..k + 1])
    decreases |ws|
  {
    TurnDispatches(r, ws[0]);
    var (r', x) := Turn(r, ws[0]);
    if k == 0 {
      assert ws[..1] == [ws[0]];
    } else {
      EndsAtFirstEmptyWait(r', ws[1..], k - 1);
      MoreWaits(r.done, ws, k);
    }
  }

  // ---- No descriptor is lost or closed twice

  ghost predicate InBalance(l: Loop) {
    Consistent(l) && Accounted(l)
  }

  lemma {:induction false} CallsBalance(r: Run, ops: seq<Op>)
    requires InBalance(r.loop)
    ensures InBalance(Calls(r, ops).loop)
    decreases |ops|
  {
    if ops != [] {
      OpAccounted(r.loop, ops[0]);
      CallsBalance(r.(loop := Apply(r.loop, ops[0]), stop := r.stop || ops[0].Stop?), ops[1..]);
    }
  }

  lemma ProcessBalance(r: Run, e: Event)
    requires InBalance(r.loop)
    ensures InBalance(ProcessEvent(r, e).loop)
  {
    if Live(r.loop, e) {
      var ctx := r.loop.polled[e.fd].ctx;
      var noted := Note(r, Data(e.node, ctx.once));
      CallsBalance(noted, e.dataOps);
      OpAccounted(Calls(noted, e.dataOps).loop, Del(ctx.fd));
    }
  }

  lemma HangUpBalance(r: Run, e: Event)
    requires InBalance(r.loop)
    ensures InBalance(HangUp(r, e).loop)
  {
    if Live(r.loop, e) {
      var noted := Note(r, Closed(e.node));
      CallsBalance(noted, e.closedOps);
      var r' := if r.loop.polled[e.fd].ctx.onClosed then Calls(noted, e.closedOps) else r;
      if Live(r'.loop, e) {
        OpAccounted(r'.loop, Del(r'.loop.polled[e.fd].ctx.fd));
      }
    }
  }

  lemma {:induction false} BatchBalance(r: Run, es: seq<Event>)
    requires InBalance(r.loop)
    ensures InBalance(DispatchAll(r, es).loop)
    decreases |es|
  {
    if es != [] {
      var r0 := Calls(r, es[0].before);
      CallsBalance(r, es[0].before);
      ProcessBalance(r0, es[0]);
      HangUpBalance(ProcessEvent(r0, es[0]), es[0]);
      BatchBalance(DispatchOne(r, es[0]), es[1..]);
    }
  }

  lemma TurnBalance(r: Run, w: Wait)
    requires InBalance(r.loop)
    ensures InBalance(Turn(r, w).0.loop)
  {
    CallsBalance(r, w.others);
    if w.Batch? {
      BatchBalance(Calls(r, w.others), w.events);
    }
  }

  /** Whatever handlers, other threads and kernel do: when the loop has ended regularly, every descriptor has
      been closed exactly as often as epoll took it; until then, the open ones account for the difference. */
  lemma {:induction false} ClosesWhatItOpened(r: Run, ws: seq<Wait>)
    requires InBalance(r.loop)
    ensures var (r', x) := EvloopRun(r, ws);
            if x.Stopped? then multiset(r'.loop.closed) == multiset(r'.loop.taken) else InBalance(r'.loop)
    decreases |ws|
  {
    if ws != [] {
      TurnBalance(r, ws[0]);
      var (r', x) := Turn(r, ws[0]);
      if x.Running? {
        ClosesWhatItOpened(r', ws[1..]);
      }
    }
  }

  /** The final loop closes each descriptor that is still open exactly once. */
  lemma {:induction false} ClosesEachOnce(r: Run, ws: seq<Wait>)
    requires InBalance(r.loop) && EvloopRun(r, ws).1.Stopped?
    ensures var l := EvloopRun(r, ws).0.loop;
            && NoDuplicates(l.open) && |l.open| <= |l.closed|
            && l.closed[|l.closed| - |l.open|..] == l.open
    decreases |ws|
  {
    TurnBalance(r, ws[0]);
    var (r', x) := Turn(r, ws[0]);
    if x.Running? {
      ClosesEachOnce(r', ws[1..]);
    }
  }
}
