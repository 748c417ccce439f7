/** Concrete runs of the event loop: three that differ in what one callback removes, and one in which a callback
    registers an accepted connection. */
module SampleRuns {
  import opened Registry
  import opened Dispatch
  import opened CallbackOrder

  const SOCKET: Context := Context(5, false, true)
  const SIGNAL: Context := Context(6, true, false)
  const OTHER: Context := Context(7, false, false)

  /** Another thread registers a socket with a closed callback, a once-signal and a second socket. */
  const SETUP: seq<Op> := [Add(SOCKET, true), Add(SIGNAL, true), Add(OTHER, true)]

  const READY: Loop := Loop(map[5 := Entry(0, SOCKET), 6 := Entry(1, SIGNAL), 7 := Entry(2, OTHER)],
                            [5, 6, 7], map[5 := 0, 6 := 1, 7 := 2], 3, [5, 6, 7], [])

  lemma OpCons(r: Run, op: Op, ops: seq<Op>)
    ensures var r' := r.(loop := Apply(r.loop, op), stop := r.stop || op.Stop?);
            && Calls(r, [op] + ops) == Calls(r', ops)
            && (Fresh(r.loop, [op] + ops) <==> (op.Add? ==> op.ctx.fd !in r.loop.interest) && Fresh(r'.loop, ops))
  {
  }

  lemma OneOp(r: Run, op: Op)
    ensures Calls(r, [op]) == r.(loop := Apply(r.loop, op), stop := r.stop || op.Stop?)
    ensures Fresh(r.loop, [op]) <==> op.Add? ==> op.ctx.fd !in r.loop.interest
  {
  }

  lemma SetUp()
    ensures Fresh(NO_FDS, SETUP) && Calls(BEGIN, SETUP) == BEGIN.(loop := READY)
  {
    var r1 := BEGIN.(loop := Apply(NO_FDS, Add(SOCKET, true)));
    var r2 := r1.(loop := Apply(r1.loop, Add(SIGNAL, true)));
    OpCons(BEGIN, Add(SOCKET, true), [Add(SIGNAL, true), Add(OTHER, true)]);
    OpCons(r1, Add(SIGNAL, true), [Add(OTHER, true)]);
    OneOp(r2, Add(OTHER, true));
    assert SETUP == [Add(SOCKET, true)] + [Add(SIGNAL, true), Add(OTHER, true)];
    assert SETUP[1..] == [Add(SIGNAL, true)] + [Add(OTHER, true)];
    assert r2.loop.open == [5, 6];
  }

  /** The signal, and a hang-up of the socket. */
  function Fired(fd: Fd): Event {
    Event(6, 1, false, [], [Del(fd)], [])
  }

  function HungUp(ops: seq<Op>): Event {
    Event(5, 0, true, [], ops, [])
  }

  function Sample(events: seq<Event>): seq<Wait> {
    [Batch(SETUP, events)]
  }

  /** What becomes of a batch dispatched from READY is what becomes of the run. */
  lemma Ready(events: seq<Event>, r: Run)
    requires BatchOk(READY, events) && events != [] && r == BEGIN.(loop := READY) && BatchFresh(r, events)
    ensures Legal(BEGIN, Sample(events))
    ensures EvloopRun(BEGIN, Sample(events)).0 == DispatchAll(r, events)
    ensures CarefulRun(BEGIN, Sample(events)) <==> Careful(READY, events)
  {
    SetUp();
    assert Sample(events)[1..] == [];
    CarefulTurn(BEGIN, Batch(SETUP, events));
  }

  lemma AfterSignal(r: Run, fd: Fd)
    requires r.loop == READY && fd in {5, 7}
    ensures EventFresh(r, Fired(fd))
    ensures var r' := DispatchOne(r, Fired(fd));
            r'.loop == Remove(Remove(READY, fd), 6) && r'.log == r.log + [Data(1, true)]
  {
  }

  lemma EventCons(r: Run, e: Event, es: seq<Event>)
    ensures DispatchAll(r, [e] + es) == DispatchAll(DispatchOne(r, e), es)
    ensures BatchFresh(r, [e] + es) <==> EventFresh(r, e) && BatchFresh(DispatchOne(r, e), es)
  {
  }

  lemma TwoEvents(r: Run, e: Event, f: Event)
    ensures DispatchAll(r, [e, f]) == DispatchOne(DispatchOne(r, e), f)
    ensures BatchFresh(r, [e, f]) <==> EventFresh(r, e) && EventFresh(DispatchOne(r, e), f)
  {
    assert [e, f] == [e] + ([f] + []);
    EventCons(r, e, [f] + []);
    EventCons(DispatchOne(r, e), f, []);
  }

  lemma AfterHangUp(r: Run, e: Event)
    requires 5 in r.loop.polled && r.loop.polled[5] == Entry(0, SOCKET) && e == HungUp([])
    ensures EventFresh(r, e)
    ensures DispatchOne(r, e).log == r.log + [Data(0, false)] + [Closed(0)]
  {
  }

  lemma AfterLateHangUp(r: Run, e: Event)
    requires 5 !in r.loop.polled && e == HungUp([])
    ensures EventFresh(r, e)
    ensures DispatchOne(r, e).log == r.log + [Dangling(0)] + [Dangling(0)]
  {
  }

  lemma BothReported(fd: Fd, es: seq<Event>)
    requires es == [Fired(fd), HungUp([])]
    ensures BatchOk(READY, es) && (Careful(READY, es) <==> fd != 5)
  {
    assert OpsOf(READY, es[0]) == [Del(fd)];
    assert Removes(OpsOf(READY, es[0]), es[1].fd) <==> fd == 5;
    assert !CutsItself(READY, es[0]) && !CutsItself(READY, es[1]);
  }

  lemma SocketStays(l: Loop)
    requires l.polled == READY.polled
    ensures var l' := Remove(Remove(l, 7), 6); 5 in l'.polled && l'.polled[5] == Entry(0, SOCKET)
  {
  }

  lemma SocketGoes(l: Loop)
    requires l == READY
    ensures 5 !in Remove(Remove(l, 5), 6).polled
  {
  }

  lemma Dispatched(r: Run, e: Event, f: Event, fd: Fd)
    requires r.loop == READY && e == Fired(fd) && fd in {5, 7} && f == HungUp([])
    ensures BatchFresh(r, [e, f])
    ensures fd == 7 ==> DispatchAll(r, [e, f]).log == r.log + [Data(1, true)] + [Data(0, false)] + [Closed(0)]
    ensures fd == 5 ==> DispatchAll(r, [e, f]).log == r.log + [Data(1, true)] + [Dangling(0)] + [Dangling(0)]
  {
    AfterSignal(r, fd);
    TwoEvents(r, e, f);
    if fd == 7 {
      SocketStays(READY);
      AfterHangUp(DispatchOne(r, e), f);
    } else {
      SocketGoes(READY);
      AfterLateHangUp(DispatchOne(r, e), f);
    }
  }

  /** The signal's callback removes a third descriptor: the rest of the batch is as it should be, with data
      callback and closed callback of the socket. */
  lemma RemovalElsewhere(es: seq<Event>, r: Run)
    requires es == [Fired(7), HungUp([])] && r == EvloopRun(BEGIN, Sample(es)).0
    ensures Legal(BEGIN, Sample(es)) && CarefulRun(BEGIN, Sample(es))
    ensures r.log == [Data(1, true), Data(0, false), Closed(0)]
  {
    var r0 := BEGIN.(loop := READY);
    Dispatched(r0, es[0], es[1], 7);
    BothReported(7, es);
    Ready(es, r0);
  }

  /** It removes the socket whose hang-up comes next: the loop goes on to use its context. */
  lemma CrossRemovalDangles(es: seq<Event>, r: Run)
    requires es == [Fired(5), HungUp([])] && r == EvloopRun(BEGIN, Sample(es)).0
    ensures Legal(BEGIN, Sample(es)) && !CarefulRun(BEGIN, Sample(es))
    ensures r.log == [Data(1, true), Dangling(0), Dangling(0)]
  {
    var r0 := BEGIN.(loop := READY);
    Dispatched(r0, es[0], es[1], 5);
    BothReported(5, es);
    Ready(es, r0);
  }

  lemma HungUpReported(es: seq<Event>)
    requires es == [HungUp([Del(5)])]
    ensures BatchOk(READY, es) && !Careful(READY, es)
  {
    assert CutsItself(READY, es[0]);
  }

  lemma AfterOwnRemoval(r: Run, e: Event)
    requires r.loop == READY && e == HungUp([Del(5)])
    ensures BatchFresh(r, [e]) && DispatchAll(r, [e]).log == r.log + [Data(0, false)] + [Dangling(0)]
  {
    OneOp(Note(r, Data(0, false)), Del(5));
    EventCons(r, e, []);
    assert [e] + [] == [e];
  }

  /** The data callback of a hang-up removes its own descriptor: the loop uses the context once more. */
  lemma RemovalBeforeHangUpDangles(es: seq<Event>, r: Run)
    requires es == [HungUp([Del(5)])] && r == EvloopRun(BEGIN, Sample(es)).0
    ensures Legal(BEGIN, Sample(es)) && !CarefulRun(BEGIN, Sample(es))
    ensures r.log == [Data(0, false), Dangling(0)]
  {
    var r0 := BEGIN.(loop := READY);
    AfterOwnRemoval(r0, es[0]);
    HungUpReported(es);
    Ready(es, r0);
  }

  // ---- A callback that registers

  const LISTENING: Context := Context(3, false, false)

  /** A listening socket with a new connection, which its data callback accepts as descriptor 5. */
  function Accepting(e: Event): bool {
    e == Event(3, 0, false, [], [Add(SOCKET, true)], [])
  }

  lemma AfterListening(r: Run)
    requires r == BEGIN
    ensures Fresh(r.loop, [Add(LISTENING, true)])
    ensures var r' := Calls(r, [Add(LISTENING, true)]);
            && r'.loop.polled == map[3 := Entry(0, LISTENING)] && r'.loop.interest == map[3 := 0]
            && r'.loop.open == [3] && r'.loop.next == 1 && r'.log == [] && !r'.stop
  {
    OneOp(r, Add(LISTENING, true));
  }

  lemma AfterAccepting(r: Run, e: Event)
    requires r.loop.polled == map[3 := Entry(0, LISTENING)] && r.loop.interest == map[3 := 0] && r.loop.next == 1
    requires r.loop.open == [3] && Accepting(e)
    ensures EventFresh(r, e) && Reported(r.loop, e) && !CutsItself(r.loop, e)
    ensures var r' := DispatchOne(r, e);
            && 5 in r'.loop.polled && r'.loop.polled[5] == Entry(1, SOCKET)
            && 5 in r'.loop.interest && r'.loop.interest[5] == 1
            && r'.log == r.log + [Data(0, false)] && r'.stop == r.stop
  {
    OneOp(Note(r, Data(0, false)), Add(SOCKET, true));
  }

  lemma OneEvent(r: Run, w: Wait, e: Event)
    requires w == Batch(w.others, [e]) && Fresh(r.loop, w.others)
    requires var r0 := Calls(r, w.others); Reported(r0.loop, e) && EventFresh(r0, e) && !CutsItself(r0.loop, e)
    ensures Turn(r, w) == (DispatchOne(Calls(r, w.others), e), Running)
    ensures forall ws :: (Legal(r, [w] + ws) <==> Legal(Turn(r, w).0, ws))
                      && (CarefulRun(r, [w] + ws) <==> CarefulRun(Turn(r, w).0, ws))
                      && EvloopRun(r, [w] + ws) == EvloopRun(Turn(r, w).0, ws)
  {
    var r0 := Calls(r, w.others);
    EventCons(r0, e, []);
    assert [e] + [] == [e];
    forall ws: seq<Wait>
      ensures ([w] + ws)[0] == w && ([w] + ws)[1..] == ws
    {
    }
  }

  lemma AfterHangUpOfAccepted(r: Run, e: Event)
    requires 5 in r.loop.polled && r.loop.polled[5] == Entry(1, SOCKET)
    requires 5 in r.loop.interest && r.loop.interest[5] == 1 && e == Event(5, 1, true, [], [], [])
    ensures EventFresh(r, e) && Reported(r.loop, e) && !CutsItself(r.loop, e)
    ensures DispatchOne(r, e).log == r.log + [Data(1, false)] + [Closed(1)]
  {
  }

  /** The connection that a callback has registered in one batch gets its events in the next. */
  lemma AcceptedInCallback(e: Event, f: Event, ws: seq<Wait>)
    requires Accepting(e) && f == Event(5, 1, true, [], [], [])
    requires ws == [Batch([Add(LISTENING, true)], [e])] + ([Batch([], [f])] + [])
    ensures Legal(BEGIN, ws) && CarefulRun(BEGIN, ws)
    ensures EvloopRun(BEGIN, ws).0.log == [Data(0, false), Data(1, false), Closed(1)]
  {
    var w1, w2 := Batch([Add(LISTENING, true)], [e]), Batch([], [f]);
    AfterListening(BEGIN);
    AfterAccepting(Calls(BEGIN, w1.others), e);
    OneEvent(BEGIN, w1, e);
    var r1 := Turn(BEGIN, w1).0;
    AfterHangUpOfAccepted(r1, f);
    OneEvent(r1, w2, f);
  }
}
