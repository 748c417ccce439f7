/** What dispatching does to the event loop's records: exactly the operations that callbacks and other threads
    perform, and the removals the loop does itself, all of them and in order. */
module LoopEffects {
  import opened Registry
  import opened Dispatch
  import opened CallbackOrder

  lemma {:induction false} CallsAreOps(r: Run, ops: seq<Op>)
    ensures var r' := Calls(r, ops);
            && r'.loop == ApplyAll(r.loop, ops) && r'.log == r.log && r'.done == r.done
            && (r'.stop <==> r.stop || Stop in ops)
    decreases |ops|
  {
    if ops != [] {
      CallsAreOps(r.(loop := Apply(r.loop, ops[0]), stop := r.stop || ops[0].Stop?), ops[1..]);
    }
  }

  lemma {:induction false} ApplyAppend(l: Loop, ops: seq<Op>, more: seq<Op>)
    ensures ApplyAll(l, ops + more) == ApplyAll(ApplyAll(l, ops), more)
    ensures Fresh(l, ops + more) <==> Fresh(l, ops) && Fresh(ApplyAll(l, ops), more)
    decreases |ops|
  {
    if ops == [] {
      assert ops + more == more;
    } else {
      assert (ops + more)[1..] == ops[1..] + more;
      ApplyAppend(Apply(l, ops[0]), ops[1..], more);
    }
  }

  lemma ApplyOne(l: Loop, op: Op)
    ensures ApplyAll(l, [op]) == Apply(l, op)
    ensures Fresh(l, [op]) <==> op.Add? ==> op.ctx.fd !in l.interest
  {
    assert [op][1..] == [];
  }

  // ---- Registrations

  predicate Adds(ops: seq<Op>, fd: Fd) {
    exists i :: 0 <= i < |ops| && ops[i].Add? && ops[i].ctx.fd == fd
  }

  lemma AddsLater(ops: seq<Op>, fd: Fd)
    requires ops != []
    ensures Adds(ops, fd) <==> Adds(ops[1..], fd) || (ops[0].Add? && ops[0].ctx.fd == fd)
  {
    assert forall i | 0 <= i < |ops[1..]| :: ops[1..][i] == ops[i + 1];
    if i :| 0 <= i < |ops| && ops[i].Add? && ops[i].ctx.fd == fd {
      assert i > 0 ==> ops[1..][i - 1] == ops[i];
    }
  }

  /** A context stays as it is under operations that do not remove it, if it is watched, and that do not enter
      another one for its number, if it is not. */
  lemma {:induction false} Stays(l: Loop, ops: seq<Op>, fd: Fd)
    requires Consistent(l) && Fresh(l, ops) && fd in l.polled
    requires if fd in l.interest then !Removes(ops, fd) else !Adds(ops, fd)
    ensures var l' := ApplyAll(l, ops);
            fd in l'.polled && l'.polled[fd] == l.polled[fd] && (fd in l'.interest <==> fd in l.interest)
    decreases |ops|
  {
    if ops != [] {
      ApplyKeeps(l, ops[0]);
      AddsLater(ops, fd);
      Stays(Apply(l, ops[0]), ops[1..], fd);
    }
  }

  /** A registration that is not undone takes effect: the context is the one that was given, and it is watched
      and open if the kernel agrees, and else just kept. */
  lemma {:induction false} AddTakesEffect(l: Loop, ops: seq<Op>, i: nat)
    requires Consistent(l) && Fresh(l, ops) && i < |ops| && ops[i].Add?
    requires var fd := ops[i].ctx.fd; if ops[i].willing then !Removes(ops[i + 1..], fd) else !Adds(ops[i + 1..], fd)
    ensures var l' := ApplyAll(l, ops); var ctx := ops[i].ctx;
            && Consistent(l') && ctx.fd in l'.polled && l'.polled[ctx.fd].ctx == ctx
            && (ctx.fd in l'.interest <==> ops[i].willing) && (ctx.fd in l'.open <==> ops[i].willing)
            && (ops[i].willing ==> l'.interest[ctx.fd] == l'.polled[ctx.fd].node)
    decreases |ops|
  {
    ApplyKeeps(l, ops[0]);
    AllOpsKeep(l, ops);
    if i == 0 {
      RegisterEffect(l, ops[0].ctx, ops[0].willing);
      Stays(Apply(l, ops[0]), ops[1..], ops[0].ctx.fd);
    } else {
      assert ops[1..][i - 1 + 1..] == ops[i + 1..];
      AddTakesEffect(Apply(l, ops[0]), ops[1..], i - 1);
    }
  }

  /** Whether a descriptor is watched after an operation: one the kernel refuses to add is not. */
  function WatchedAfter(op: Op, fd: Fd, before: bool): bool {
    match op
    case Add(ctx, willing) => before || (ctx.fd == fd && willing)
    case Del(g) => before && g != fd
    case Stop => before
  }

  function Watched(ops: seq<Op>, fd: Fd, before: bool): bool
    decreases |ops|
  {
    if ops == [] then before else Watched(ops[1..], fd, WatchedAfter(ops[0], fd, before))
  }

  /** After any operations, in any order, a descriptor is watched exactly when the last one that concerned it was
      a registration to which the kernel agreed, or there was none and it was watched before. */
  lemma {:induction false} WatchedExactly(l: Loop, ops: seq<Op>, fd: Fd)
    requires Consistent(l)
    ensures fd in ApplyAll(l, ops).interest <==> Watched(ops, fd, fd in l.interest)
    decreases |ops|
  {
    if ops != [] {
      ApplyKeeps(l, ops[0]);
      WatchedExactly(Apply(l, ops[0]), ops[1..], fd);
    }
  }

  // ---- Events, batches, turns and runs

  /** All that happens to the loop around one event: what other threads do before it, what is done from the data
      callback on, the removal of a once-signal, what is done from the closed callback on, and the removal after
      a hang-up. */
  function AroundEvent(l: Loop, e: Event): seq<Op> {
    e.before
    + (e.dataOps
       + ((if e.fd in l.polled && l.polled[e.fd].ctx.once then [Del(e.fd)] else [])
          + ((if CallsClosed(l, e) then e.closedOps else []) + if e.hangup then [Del(e.fd)] else [])))
  }

  lemma ProcessIsOps(r: Run, e: Event)
    requires Consistent(r.loop) && Reported(r.loop, e) && Fresh(r.loop, e.dataOps)
    ensures var ops := e.dataOps + if r.loop.polled[e.fd].ctx.once then [Del(e.fd)] else [];
            var r' := ProcessEvent(r, e);
            && r'.loop == ApplyAll(r.loop, ops) && (r'.stop <==> r.stop || Stop in ops) && Fresh(r.loop, ops)
  {
    var ctx := r.loop.polled[e.fd].ctx;
    var noted := Note(r, Data(e.node, ctx.once));
    var ops := if ctx.once then [Del(e.fd)] else [];
    CallsAreOps(noted, e.dataOps);
    ApplyAppend(r.loop, e.dataOps, ops);
    ApplyOne(ApplyAll(r.loop, e.dataOps), Del(e.fd));
  }

  lemma HangUpIsOps(r: Run, e: Event)
    requires Consistent(r.loop) && Reported(r.loop, e) && Fresh(r.loop, e.closedOps) && e.hangup
    requires !(CallsClosed(r.loop, e) && Removes(e.closedOps, e.fd))
    ensures var ops := (if CallsClosed(r.loop, e) then e.closedOps else []) + [Del(e.fd)];
            var r' := HangUp(r, e);
            && r'.loop == ApplyAll(r.loop, ops) && (r'.stop <==> r.stop || Stop in ops) && Fresh(r.loop, ops)
  {
    var ops := if CallsClosed(r.loop, e) then e.closedOps else [];
    var noted := Note(r, Closed(e.node));
    CallsAreOps(noted, e.closedOps);
    CallsFollow(noted, e.closedOps);
    CallsRemove(noted, e.closedOps, e.fd);
    ApplyAppend(r.loop, ops, [Del(e.fd)]);
    ApplyOne(ApplyAll(r.loop, ops), Del(e.fd));
  }

  lemma FirstHalfIsOps(r: Run, e: Event)
    requires Consistent(r.loop) && Reported(r.loop, e) && EventFresh(r, e) && !Removes(e.before, e.fd)
    ensures var ops := e.before + (e.dataOps + if r.loop.polled[e.fd].ctx.once then [Del(e.fd)] else []);
            var r' := ProcessEvent(Calls(r, e.before), e);
            && r'.loop == ApplyAll(r.loop, ops) && (r'.stop <==> r.stop || Stop in ops) && Fresh(r.loop, ops)
  {
    var r0 := Calls(r, e.before);
    CallsAreOps(r, e.before);
    BeforeWatched(r, e, e.fd);
    ProcessIsOps(r0, e);
    ApplyAppend(r.loop, e.before, e.dataOps + if r.loop.polled[e.fd].ctx.once then [Del(e.fd)] else []);
  }

  lemma QuietEventParts(l: Loop, e: Event)
    requires Reported(l, e) && e.fd in l.polled
    ensures !e.hangup ==>
              AroundEvent(l, e) == e.before + (e.dataOps + if l.polled[e.fd].ctx.once then [Del(e.fd)] else [])
    ensures e.hangup ==>
              AroundEvent(l, e) == e.before + (e.dataOps + [])
                                   + ((if CallsClosed(l, e) then e.closedOps else []) + [Del(e.fd)])
  {
  }

  lemma ClosedCallKept(r: Run, e: Event)
    requires Consistent(r.loop) && Reported(r.loop, e) && EventFresh(r, e) && !CutsItself(r.loop, e) && e.hangup
    ensures var r1 := ProcessEvent(Calls(r, e.before), e);
            && Consistent(r1.loop) && Reported(r1.loop, e) && (CallsClosed(r1.loop, e) <==> CallsClosed(r.loop, e))
  {
    FirstHalfWatched(r, e, e.fd);
    StillReported(r.loop, ProcessEvent(Calls(r, e.before), e).loop, e);
  }

  /** One event that nobody cuts short does these operations and no others. */
  lemma EventIsOps(r: Run, e: Event)
    requires Consistent(r.loop) && Reported(r.loop, e) && EventFresh(r, e) && !CutsItself(r.loop, e)
    ensures var ops, r' := AroundEvent(r.loop, e), DispatchOne(r, e);
            && r'.loop == ApplyAll(r.loop, ops) && (r'.stop <==> r.stop || Stop in ops) && Fresh(r.loop, ops)
  {
    FirstHalfIsOps(r, e);
    QuietEventParts(r.loop, e);
    if e.hangup {
      ClosedCallKept(r, e);
      HangUpIsOps(ProcessEvent(Calls(r, e.before), e), e);
      ApplyAppend(r.loop, e.before + (e.dataOps + []),
                  (if CallsClosed(r.loop, e) then e.closedOps else []) + [Del(e.fd)]);
    }
  }

  function AroundEvents(l: Loop, es: seq<Event>): seq<Op> {
    if es == [] then [] else AroundEvent(l, es[0]) + AroundEvents(l, es[1..])
  }

  lemma {:induction false} SameAround(l: Loop, l': Loop, es: seq<Event>)
    requires forall i | 0 <= i < |es| :: es[i].fd in l.polled && Same(l, l', es[i].fd)
    ensures AroundEvents(l, es) == AroundEvents(l', es)
  {
    if es != [] {
      assert Same(l, l', es[0].fd);
      assert forall i | 0 <= i < |es[1..]| :: es[1..][i] == es[i + 1];
      SameAround(l, l', es[1..]);
    }
  }

  /** So does a whole batch. */
  lemma {:induction false} BatchIsOps(r: Run, es: seq<Event>)
    requires Consistent(r.loop) && BatchOk(r.loop, es) && BatchFresh(r, es) && Careful(r.loop, es)
    ensures var ops, r' := AroundEvents(r.loop, es), DispatchAll(r, es);
            && r'.loop == ApplyAll(r.loop, ops) && (r'.stop <==> r.stop || Stop in ops) && Fresh(r.loop, ops)
    decreases |es|
  {
    if es != [] {
      var r1 := DispatchOne(r, es[0]);
      CarefulParts(r.loop, es);
      EventIsOps(r, es[0]);
      DispatchFollows(r, es[0]);
      RestReported(r, es);
      SameCare(r.loop, r1.loop, es[1..]);
      SameAround(r.loop, r1.loop, es[1..]);
      BatchIsOps(r1, es[1..]);
      ApplyAppend(r.loop, AroundEvent(r.loop, es[0]), AroundEvents(r.loop, es[1..]));
    }
  }

  /** What happens to the loop in the course of one wait and the batch it returns; of a wait that is interrupted
      or fails, what other threads did meanwhile remains. */
  function AroundTurn(l: Loop, w: Wait): seq<Op> {
    w.others + if w.Batch? then AroundEvents(ApplyAll(l, w.others), w.events) else []
  }

  lemma TurnIsOps(r: Run, w: Wait)
    requires Consistent(r.loop) && Legal(r, [w]) && CarefulRun(r, [w])
    ensures var ops, r' := AroundTurn(r.loop, w), Turn(r, w).0;
            && r'.loop == ApplyAll(r.loop, ops) && (r'.stop <==> r.stop || Stop in ops) && Fresh(r.loop, ops)
  {
    var r0 := Calls(r, w.others);
    CarefulTurn(r, w);
    CallsAreOps(r, w.others);
    CallsFollow(r, w.others);
    if w.Batch? {
      BatchIsOps(r0, w.events);
      ApplyAppend(r.loop, w.others, AroundEvents(r0.loop, w.events));
    } else {
      assert w.others + [] == w.others;
    }
  }

  /** What happens to the loop in a whole run, until it ends. */
  function AroundRun(r: Run, ws: seq<Wait>): seq<Op>
    decreases |ws|
  {
    if ws == [] then []
    else AroundTurn(r.loop, ws[0]) + if Turn(r, ws[0]).1.Running? then AroundRun(Turn(r, ws[0]).0, ws[1..]) else []
  }

  lemma RunStepIsOps(r: Run, ws: seq<Wait>)
    requires Consistent(r.loop) && ws != [] && Legal(r, ws) && CarefulRun(r, ws)
    ensures var ops, r' := AroundTurn(r.loop, ws[0]), Turn(r, ws[0]).0;
            && Consistent(r'.loop)
            && r'.loop == ApplyAll(r.loop, ops) && (r'.stop <==> r.stop || Stop in ops) && Fresh(r.loop, ops)
  {
    assert Legal(r, [ws[0]]);
    CarefulRunParts(r, ws);
    TurnIsOps(r, ws[0]);
    TurnFollows(r, ws[0]);
  }

  /** Over every run in which nobody removes too early, the loop's records are what these operations make of
      them, up to the descriptors the end of the loop closes; and it is told to stop exactly when it was, by
      whomever. */
  lemma {:induction false} RunIsOps(r: Run, ws: seq<Wait>)
    requires Consistent(r.loop) && Legal(r, ws) && CarefulRun(r, ws)
    ensures var ops := AroundRun(r, ws); var l := ApplyAll(r.loop, ops); var (r', x) := EvloopRun(r, ws);
            && r'.loop == l.(closed := if x.Stopped? then l.closed + l.open else l.closed)
            && (r'.stop <==> r.stop || Stop in ops) && Fresh(r.loop, ops)
    decreases |ws|
  {
    if ws != [] {
      RunStepIsOps(r, ws);
      var (r', x) := Turn(r, ws[0]);
      var ops, rest := AroundTurn(r.loop, ws[0]), if x.Running? then AroundRun(r', ws[1..]) else [];
      if x.Running? {
        CarefulRunParts(r, ws);
        RunIsOps(r', ws[1..]);
      }
      ApplyAppend(r.loop, ops, rest);
    }
  }

  /** So a registration by a callback or by another thread, at any point of a run, takes effect when nobody
      undoes it: the context is the one that was given, and its descriptor is watched if the kernel agrees. */
  lemma RegistrationTakesEffect(ws: seq<Wait>, i: nat)
    requires Legal(BEGIN, ws) && CarefulRun(BEGIN, ws) && i < |AroundRun(BEGIN, ws)|
    requires var ops := AroundRun(BEGIN, ws);
             ops[i].Add? && var fd := ops[i].ctx.fd;
             if ops[i].willing then !Removes(ops[i + 1..], fd) else !Adds(ops[i + 1..], fd)
    ensures var l, op := EvloopRun(BEGIN, ws).0.loop, AroundRun(BEGIN, ws)[i];
            && op.ctx.fd in l.polled && l.polled[op.ctx.fd].ctx == op.ctx
            && (op.ctx.fd in l.interest <==> op.willing) && (op.ctx.fd in l.open <==> op.willing)
            && (op.willing ==> l.interest[op.ctx.fd] == l.polled[op.ctx.fd].node)
  {
    RunIsOps(BEGIN, ws);
    AddTakesEffect(BEGIN.loop, AroundRun(BEGIN, ws), i);
  }

  /** And at the end of such a run exactly the descriptors are watched that these operations leave watched. */
  lemma WatchedAtEnd(ws: seq<Wait>, fd: Fd)
    requires Legal(BEGIN, ws) && CarefulRun(BEGIN, ws)
    ensures fd in EvloopRun(BEGIN, ws).0.loop.interest <==> Watched(AroundRun(BEGIN, ws), fd, false)
  {
    RunIsOps(BEGIN, ws);
    WatchedExactly(BEGIN.loop, AroundRun(BEGIN, ws), fd);
  }

  /** And a call of stop() is never lost. */
  lemma StopIsSeen(ws: seq<Wait>)
    requires Legal(BEGIN, ws) && CarefulRun(BEGIN, ws)
    ensures EvloopRun(BEGIN, ws).0.stop <==> Stop in AroundRun(BEGIN, ws)
  {
    RunIsOps(BEGIN, ws);
  }
}
