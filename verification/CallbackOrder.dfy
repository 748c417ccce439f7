/** What every run of the event loop keeps, whatever callbacks and other threads do: the callbacks of one
    registration come in the promised order, and no context is used after it is gone, exactly when nobody
    removes a descriptor too early. */
module CallbackOrder {
  import opened Registry
  import opened Dispatch

  /** No registered context has this identity any more, and none will get it again. */
  ghost predicate Gone(l: Loop, n: Node) {
    n < l.next && forall fd | fd in l.polled :: l.polled[fd].node != n
  }

  ghost predicate Same(l: Loop, l': Loop, fd: Fd)
    requires fd in l.polled
  {
    && fd in l'.polled && l'.polled[fd] == l.polled[fd]
    && (fd in l.interest <==> fd in l'.interest)
  }

  /** What any series of operations does: contexts stay as they are, go, or are new; one that is not watched may
      be overwritten where it is. */
  ghost predicate Follows(l: Loop, l': Loop) {
    && l.next <= l'.next
    && forall fd | fd in l'.polled ::
         || l'.polled[fd].node >= l.next
         || (&& fd in l.polled && l'.polled[fd].node == l.polled[fd].node
             && (fd in l.interest ==> fd in l'.interest && l'.polled[fd] == l.polled[fd]))
  }

  lemma FollowsTrans(a: Loop, b: Loop, c: Loop)
    requires Follows(a, b) && Follows(b, c)
    ensures Follows(a, c)
  {
  }

  lemma OpFollows(l: Loop, op: Op)
    requires Consistent(l) && (op.Add? ==> op.ctx.fd !in l.interest)
    ensures Consistent(Apply(l, op)) && Follows(l, Apply(l, op))
  {
    ApplyKeeps(l, op);
  }

  lemma {:induction false} CallsFollow(r: Run, ops: seq<Op>)
    requires Consistent(r.loop) && Fresh(r.loop, ops)
    ensures var r' := Calls(r, ops);
            && Consistent(r'.loop) && Follows(r.loop, r'.loop)
            && r'.log == r.log && r'.done == r.done
    decreases |ops|
  {
    if ops != [] {
      var l := Apply(r.loop, ops[0]);
      OpFollows(r.loop, ops[0]);
      CallsFollow(r.(loop := l, stop := r.stop || ops[0].Stop?), ops[1..]);
      FollowsTrans(r.loop, l, Calls(r, ops).loop);
    }
  }

  /** Who is not removed stays as he is, and who is removed is gone for good. */
  lemma {:induction false} CallsRemove(r: Run, ops: seq<Op>, fd: Fd)
    requires Consistent(r.loop) && Fresh(r.loop, ops) && fd in r.loop.interest
    ensures var r' := Calls(r, ops);
            if Removes(ops, fd) then Gone(r'.loop, r.loop.polled[fd].node) else Same(r.loop, r'.loop, fd)
    decreases |ops|
  {
    if ops != [] {
      var r1 := r.(loop := Apply(r.loop, ops[0]), stop := r.stop || ops[0].Stop?);
      ApplyKeeps(r.loop, ops[0]);
      if ops[0] == Del(fd) {
        assert Gone(r1.loop, r.loop.polled[fd].node);
        CallsFollow(r1, ops[1..]);
      } else {
        assert Same(r.loop, r1.loop, fd);
        CallsRemove(r1, ops[1..], fd);
      }
    }
  }

  lemma RemoveFollows(l: Loop, fd: Fd)
    requires Consistent(l)
    ensures var l' := Remove(l, fd);
            && Consistent(l') && Follows(l, l')
            && (forall g | g in l.polled && g != fd :: Same(l, l', g))
            && (fd in l.interest ==> Gone(l', l.polled[fd].node))
  {
    RemoveKeeps(l, fd);
  }

  // ---- One event

  lemma ProcessFollows(r: Run, e: Event)
    requires Consistent(r.loop) && Fresh(r.loop, e.dataOps)
    ensures var r' := ProcessEvent(r, e);
            Consistent(r'.loop) && Follows(r.loop, r'.loop) && r.log < r'.log && r'.done == r.done
  {
    if Live(r.loop, e) {
      var ctx := r.loop.polled[e.fd].ctx;
      var r1 := Note(r, Data(e.node, ctx.once));
      CallsFollow(r1, e.dataOps);
      RemoveFollows(Calls(r1, e.dataOps).loop, ctx.fd);
    }
  }

  lemma HangUpFollows(r: Run, e: Event)
    requires Consistent(r.loop) && Fresh(r.loop, e.closedOps)
    ensures var r' := HangUp(r, e);
            Consistent(r'.loop) && Follows(r.loop, r'.loop) && r.log <= r'.log && r'.done == r.done
  {
    if Live(r.loop, e) {
      var noted := Note(r, Closed(e.node));
      var r1 := if r.loop.polled[e.fd].ctx.onClosed then Calls(noted, e.closedOps) else r;
      CallsFollow(noted, e.closedOps);
      if Live(r1.loop, e) {
        RemoveFollows(r1.loop, r1.loop.polled[e.fd].ctx.fd);
        FollowsTrans(r.loop, r1.loop, HangUp(r, e).loop);
      }
    }
  }

  lemma DispatchFollows(r: Run, e: Event)
    requires Consistent(r.loop) && EventFresh(r, e)
    ensures var r' := DispatchOne(r, e);
            Consistent(r'.loop) && Follows(r.loop, r'.loop) && r.log < r'.log && r'.done == r.done + [e]
  {
    var r0 := Calls(r, e.before);
    CallsFollow(r, e.before);
    ProcessFollows(r0, e);
    if e.hangup {
      HangUpFollows(ProcessEvent(r0, e), e);
    }
  }

  /** The callbacks one event is due: the data callback, and on a hang-up the closed callback, if set. */
  function Due(l: Loop, e: Event): seq<Item>
    requires e.fd in l.polled
  {
    [Data(e.node, l.polled[e.fd].ctx.once)] + if CallsClosed(l, e) then [Closed(e.node)] else []
  }

  /** The data callback of a reported event, seen from any descriptor `fd` watched with it. */
  lemma ProcessWatched(r: Run, e: Event, fd: Fd)
    requires Consistent(r.loop) && Reported(r.loop, e) && Fresh(r.loop, e.dataOps) && fd in r.loop.interest
    ensures var r' := ProcessEvent(r, e); var once := r.loop.polled[e.fd].ctx.once;
            && r'.log == r.log + [Data(e.node, once)]
            && if Removes(e.dataOps, fd) || (once && fd == e.fd)
               then Gone(r'.loop, r.loop.polled[fd].node) else Same(r.loop, r'.loop, fd)
  {
    var ctx := r.loop.polled[e.fd].ctx;
    var noted := Note(r, Data(e.node, ctx.once));
    var r1 := Calls(noted, e.dataOps);
    CallsFollow(noted, e.dataOps);
    CallsRemove(noted, e.dataOps, fd);
    RemoveFollows(r1.loop, e.fd);
  }

  /** The same for a hang-up; the loop removes the descriptor of the event itself. */
  lemma HangUpWatched(r: Run, e: Event, fd: Fd)
    requires Consistent(r.loop) && Reported(r.loop, e) && Fresh(r.loop, e.closedOps) && fd in r.loop.interest
    requires e.hangup && !(CallsClosed(r.loop, e) && Removes(e.closedOps, e.fd))
    ensures var r' := HangUp(r, e);
            && r'.log == r.log + (if CallsClosed(r.loop, e) then [Closed(e.node)] else [])
            && if (CallsClosed(r.loop, e) && Removes(e.closedOps, fd)) || fd == e.fd
               then Gone(r'.loop, r.loop.polled[fd].node) else Same(r.loop, r'.loop, fd)
  {
    if CallsClosed(r.loop, e) {
      var noted := Note(r, Closed(e.node));
      var r1 := Calls(noted, e.closedOps);
      CallsFollow(noted, e.closedOps);
      CallsRemove(noted, e.closedOps, fd);
      CallsRemove(noted, e.closedOps, e.fd);
      RemoveFollows(r1.loop, e.fd);
    } else {
      RemoveFollows(r.loop, e.fd);
    }
  }

  /** Whether the descriptor `fd` is removed in the course of an event. */
  predicate Drops(l: Loop, e: Event, fd: Fd) {
    Removes(OpsOf(l, e), fd) || (fd == e.fd && (e.hangup || (e.fd in l.polled && l.polled[e.fd].ctx.once)))
  }

  lemma BeforeWatched(r: Run, e: Event, fd: Fd)
    requires Consistent(r.loop) && Reported(r.loop, e) && EventFresh(r, e) && fd in r.loop.interest
    requires !Removes(e.before, e.fd)
    ensures var r0 := Calls(r, e.before);
            && Consistent(r0.loop) && Follows(r.loop, r0.loop) && r0.log == r.log
            && Reported(r0.loop, e) && Same(r.loop, r0.loop, e.fd)
            && if Removes(e.before, fd) then Gone(r0.loop, r.loop.polled[fd].node) else Same(r.loop, r0.loop, fd)
  {
    CallsFollow(r, e.before);
    CallsRemove(r, e.before, e.fd);
    CallsRemove(r, e.before, fd);
  }

  lemma OpsOfParts(l: Loop, e: Event, fd: Fd)
    ensures Removes(OpsOf(l, e), fd) <==>
            Removes(e.before, fd) || Removes(e.dataOps, fd) || (CallsClosed(l, e) && Removes(e.closedOps, fd))
  {
  }

  /** Up to the end of the data callback. */
  lemma FirstHalfWatched(r: Run, e: Event, fd: Fd)
    requires Consistent(r.loop) && Reported(r.loop, e) && EventFresh(r, e) && fd in r.loop.interest
    requires !Removes(e.before, e.fd)
    ensures var r1 := ProcessEvent(Calls(r, e.before), e); var once := r.loop.polled[e.fd].ctx.once;
            && Consistent(r1.loop) && Follows(r.loop, r1.loop)
            && r1.log == r.log + [Data(e.node, once)]
            && if Removes(e.before, fd) || Removes(e.dataOps, fd) || (once && fd == e.fd)
               then Gone(r1.loop, r.loop.polled[fd].node) else Same(r.loop, r1.loop, fd)
  {
    var r0 := Calls(r, e.before);
    BeforeWatched(r, e, fd);
    ProcessFollows(r0, e);
    ProcessWatched(r0, e, e.fd);
    if !Removes(e.before, fd) {
      ProcessWatched(r0, e, fd);
    }
  }

  lemma StillReported(l: Loop, l': Loop, e: Event)
    requires Consistent(l') && Reported(l, e) && e.fd in l.polled && Same(l, l', e.fd)
    requires l.interest[e.fd] == l.polled[e.fd].node
    ensures Reported(l', e) && CallsClosed(l', e) == CallsClosed(l, e)
  {
  }

  /** An event that nobody cuts short gets exactly the callbacks it is due, and every descriptor watched with
      it stays as it was, or is gone for good if it was removed in its course. */
  lemma DispatchWatched(r: Run, e: Event, fd: Fd)
    requires Consistent(r.loop) && Reported(r.loop, e) && EventFresh(r, e) && !CutsItself(r.loop, e)
    requires fd in r.loop.interest
    ensures var r' := DispatchOne(r, e);
            && r'.log == r.log + Due(r.loop, e)
            && if Drops(r.loop, e, fd)
               then Gone(r'.loop, r.loop.polled[fd].node) else Same(r.loop, r'.loop, fd)
  {
    OpsOfParts(r.loop, e, fd);
    FirstHalfWatched(r, e, fd);
    if e.hangup {
      FirstHalfWatched(r, e, e.fd);
      SecondHalfWatched(r, ProcessEvent(Calls(r, e.before), e), e, fd);
    }
  }

  /** The hang-up of an event whose data callback has left its descriptor as it was. */
  lemma SecondHalfWatched(r: Run, r1: Run, e: Event, fd: Fd)
    requires Consistent(r.loop) && Reported(r.loop, e) && e.hangup && fd in r.loop.interest
    requires Consistent(r1.loop) && Follows(r.loop, r1.loop) && Same(r.loop, r1.loop, e.fd)
    requires Fresh(r1.loop, e.closedOps) && !(CallsClosed(r.loop, e) && Removes(e.closedOps, e.fd))
    requires Gone(r1.loop, r.loop.polled[fd].node) || Same(r.loop, r1.loop, fd)
    ensures var r' := HangUp(r1, e);
            && r'.log == r1.log + (if CallsClosed(r.loop, e) then [Closed(e.node)] else [])
            && if Gone(r1.loop, r.loop.polled[fd].node) || (CallsClosed(r.loop, e) && Removes(e.closedOps, fd)) || fd == e.fd
               then Gone(r'.loop, r.loop.polled[fd].node) else Same(r.loop, r'.loop, fd)
  {
    StillReported(r.loop, r1.loop, e);
    HangUpFollows(r1, e);
    HangUpWatched(r1, e, e.fd);
    if !Gone(r1.loop, r.loop.polled[fd].node) {
      HangUpWatched(r1, e, fd);
    }
  }

  // ---- Uses of a context that is gone

  /** From `r` to `r'` no context was used after its removal. */
  ghost predicate Clean(r: Run, r': Run) {
    r.log <= r'.log && forall i | |r.log| <= i < |r'.log| :: !r'.log[i].Dangling?
  }

  lemma GoneFollows(l: Loop, l': Loop, n: Node)
    requires Follows(l, l') && Gone(l, n)
    ensures Gone(l', n)
  {
  }

  /** The rest of a run does not make up for a use of a removed context. */
  lemma NotCleanAnyMore(r: Run, r1: Run, r2: Run)
    requires r.log <= r1.log <= r2.log
    ensures Clean(r, r2) <==> Clean(r, r1) && Clean(r1, r2)
  {
  }

  lemma GoneProcess(r: Run, e: Event)
    requires Consistent(r.loop) && EventFresh(r, e) && Gone(Calls(r, e.before).loop, e.node)
    ensures !Clean(r, DispatchOne(r, e))
  {
    var r0 := Calls(r, e.before);
    CallsFollow(r, e.before);
    var r1 := ProcessEvent(r0, e);
    assert r1.log == r.log + [Dangling(e.node)];
    if e.hangup {
      HangUpFollows(r1, e);
    }
    assert DispatchOne(r, e).log[|r.log|] == Dangling(e.node);
  }

  lemma CutHangUp(r: Run, e: Event)
    requires Consistent(r.loop) && EventFresh(r, e) && Reported(r.loop, e)
    requires !Removes(e.before, e.fd) && e.hangup && CutsItself(r.loop, e)
    ensures !Clean(r, DispatchOne(r, e))
  {
    var r0 := Calls(r, e.before);
    BeforeWatched(r, e, e.fd);
    ProcessFollows(r0, e);
    ProcessWatched(r0, e, e.fd);
    var r1 := ProcessEvent(r0, e);
    if !Removes(e.dataOps, e.fd) {
      var noted := Note(r1, Closed(e.node));
      CallsFollow(noted, e.closedOps);
      CallsRemove(noted, e.closedOps, e.fd);
    }
    var log := HangUp(r1, e).log;
    assert log[|log| - 1] == Dangling(e.node);
  }

  lemma CutDangles(r: Run, e: Event)
    requires Consistent(r.loop) && Reported(r.loop, e) && EventFresh(r, e) && CutsItself(r.loop, e)
    ensures !Clean(r, DispatchOne(r, e))
  {
    if Removes(e.before, e.fd) {
      CallsRemove(r, e.before, e.fd);
      GoneProcess(r, e);
    } else {
      CutHangUp(r, e);
    }
  }

  lemma {:induction false} BatchFollows(r: Run, es: seq<Event>)
    requires Consistent(r.loop) && BatchFresh(r, es)
    ensures var r' := DispatchAll(r, es);
            Consistent(r'.loop) && Follows(r.loop, r'.loop) && r.log <= r'.log
    decreases |es|
  {
    if es != [] {
      DispatchFollows(r, es[0]);
      BatchFollows(DispatchOne(r, es[0]), es[1..]);
    }
  }

  /** An event whose context is gone makes the loop use it nevertheless. */
  lemma {:induction false} GoneDangles(r: Run, es: seq<Event>, j: nat)
    requires Consistent(r.loop) && BatchFresh(r, es) && j < |es| && Gone(r.loop, es[j].node)
    ensures !Clean(r, DispatchAll(r, es))
    decreases |es|
  {
    var r1 := DispatchOne(r, es[0]);
    DispatchFollows(r, es[0]);
    BatchFollows(r1, es[1..]);
    NotCleanAnyMore(r, r1, DispatchAll(r, es));
    if j == 0 {
      CallsFollow(r, es[0].before);
      GoneFollows(r.loop, Calls(r, es[0].before).loop, es[0].node);
      GoneProcess(r, es[0]);
    } else {
      GoneFollows(r.loop, r1.loop, es[j].node);
      GoneDangles(r1, es[1..], j - 1);
    }
  }

  /** The first event of a batch does no harm to the rest of it. */
  ghost predicate SparesRest(l: Loop, es: seq<Event>)
    requires es != []
  {
    !CutsItself(l, es[0]) && forall j | 0 < j < |es| :: !Removes(OpsOf(l, es[0]), es[j].fd)
  }

  /** Then the rest is reported as before, and means what it meant. */
  lemma RestReported(r: Run, es: seq<Event>)
    requires Consistent(r.loop) && es != [] && BatchOk(r.loop, es) && EventFresh(r, es[0]) && SparesRest(r.loop, es)
    ensures var l := DispatchOne(r, es[0]).loop;
            && BatchOk(l, es[1..])
            && forall i | 0 <= i < |es[1..]| :: Same(r.loop, l, es[1..][i].fd)
  {
    var l := DispatchOne(r, es[0]).loop;
    DispatchFollows(r, es[0]);
    forall i | 0 <= i < |es[1..]|
      ensures Reported(l, es[1..][i]) && Same(r.loop, l, es[1..][i].fd)
    {
      assert es[1..][i] == es[i + 1];
      DispatchWatched(r, es[0], es[i + 1].fd);
    }
  }

  lemma SameCare(l: Loop, l': Loop, es: seq<Event>)
    requires forall i | 0 <= i < |es| :: es[i].fd in l.polled && Same(l, l', es[i].fd)
    ensures Careful(l, es) <==> Careful(l', es)
  {
  }

  lemma CarefulParts(l: Loop, es: seq<Event>)
    requires es != []
    ensures Careful(l, es) <==> SparesRest(l, es) && Careful(l, es[1..])
  {
  }

  lemma HarmDangles(r: Run, es: seq<Event>)
    requires Consistent(r.loop) && es != [] && BatchOk(r.loop, es) && BatchFresh(r, es) && !SparesRest(r.loop, es)
    ensures !Clean(r, DispatchAll(r, es))
  {
    var r1 := DispatchOne(r, es[0]);
    DispatchFollows(r, es[0]);
    BatchFollows(r1, es[1..]);
    NotCleanAnyMore(r, r1, DispatchAll(r, es));
    if CutsItself(r.loop, es[0]) {
      CutDangles(r, es[0]);
    } else {
      var j :| 0 < j < |es| && Removes(OpsOf(r.loop, es[0]), es[j].fd);
      DispatchWatched(r, es[0], es[j].fd);
      GoneDangles(r1, es[1..], j - 1);
    }
  }

  lemma DueIsClean(r: Run, e: Event)
    requires Consistent(r.loop) && Reported(r.loop, e) && EventFresh(r, e) && !CutsItself(r.loop, e)
    ensures Clean(r, DispatchOne(r, e))
  {
    DispatchWatched(r, e, e.fd);
  }

  /** A harmless first event leaves the question to the rest. */
  lemma HarmlessFirst(r: Run, es: seq<Event>)
    requires Consistent(r.loop) && es != [] && BatchOk(r.loop, es) && BatchFresh(r, es) && SparesRest(r.loop, es)
    ensures var r1 := DispatchOne(r, es[0]);
            && Consistent(r1.loop) && BatchOk(r1.loop, es[1..])
            && (Careful(r.loop, es[1..]) <==> Careful(r1.loop, es[1..]))
            && (Clean(r, DispatchAll(r, es)) <==> Clean(r1, DispatchAll(r1, es[1..])))
  {
    var r1 := DispatchOne(r, es[0]);
    DispatchFollows(r, es[0]);
    DueIsClean(r, es[0]);
    BatchFollows(r1, es[1..]);
    NotCleanAnyMore(r, r1, DispatchAll(r1, es[1..]));
    RestReported(r, es);
    SameCare(r.loop, r1.loop, es[1..]);
  }

  /** In every state in which the records agree and for every batch: no context is used after its removal
      exactly when nobody removes a descriptor whose event is still to be dispatched or finished. */
  lemma {:induction false} BatchSafeExactly(r: Run, es: seq<Event>)
    requires Consistent(r.loop) && BatchOk(r.loop, es) && BatchFresh(r, es)
    ensures Clean(r, DispatchAll(r, es)) <==> Careful(r.loop, es)
    decreases |es|
  {
    if es != [] {
      CarefulParts(r.loop, es);
      if SparesRest(r.loop, es) {
        HarmlessFirst(r, es);
        BatchSafeExactly(DispatchOne(r, es[0]), es[1..]);
      } else {
        HarmDangles(r, es);
      }
    }
  }

  // ---- The order of callbacks

  function NodeOf(item: Item): Node {
    item.node
  }

  /** The last callback a registration gets. */
  predicate Final(item: Item) {
    item.Closed? || (item.Data? && item.once)
  }

  /** For every registration: data callbacks, then at most one closed callback, which comes straight after a
      data callback of the same registration, and then nothing; after the one callback of a once-signal,
      nothing. No context is used after its removal. */
  ghost predicate InOrder(log: seq<Item>) {
    && (forall i | 0 <= i < |log| :: !log[i].Dangling?)
    && (forall i, j | 0 <= i < j < |log| && Final(log[i]) :: NodeOf(log[j]) != NodeOf(log[i]))
    && (forall i | 0 <= i < |log| && log[i].Closed? :: 0 < i && log[i - 1] == Data(log[i].node, false))
  }

  /** Nothing more can come for a registration that has had its last callback. */
  ghost predicate Settled(log: seq<Item>, l: Loop) {
    && (forall i | 0 <= i < |log| :: NodeOf(log[i]) < l.next)
    && (forall i | 0 <= i < |log| && Final(log[i]) :: Gone(l, NodeOf(log[i])))
  }

  ghost predicate Good(r: Run) {
    Consistent(r.loop) && InOrder(r.log) && Settled(r.log, r.loop)
  }

  lemma SettledStays(log: seq<Item>, l: Loop, l': Loop)
    requires Settled(log, l) && Follows(l, l')
    ensures Settled(log, l')
  {
  }

  /** The callbacks due to a registered context continue every order. */
  lemma DueInOrder(log: seq<Item>, l: Loop, e: Event)
    requires Consistent(l) && InOrder(log) && Settled(log, l) && Reported(l, e)
    ensures InOrder(log + Due(l, e))
  {
  }

  /** After an event the contexts that have had their last callback are gone. */
  lemma DueSettled(log: seq<Item>, l: Loop, l': Loop, e: Event)
    requires Settled(log, l) && Follows(l, l') && Consistent(l) && Reported(l, e)
    requires e.hangup || l.polled[e.fd].ctx.once ==> Gone(l', e.node)
    ensures Settled(log + Due(l, e), l')
  {
    SettledStays(log, l, l');
  }

  lemma DispatchKeeps(r: Run, e: Event)
    requires Good(r) && Reported(r.loop, e) && EventFresh(r, e) && !CutsItself(r.loop, e)
    ensures Good(DispatchOne(r, e))
  {
    DispatchFollows(r, e);
    DispatchWatched(r, e, e.fd);
    DueInOrder(r.log, r.loop, e);
    DueSettled(r.log, r.loop, DispatchOne(r, e).loop, e);
  }

  lemma {:induction false} BatchKeeps(r: Run, es: seq<Event>)
    requires Good(r) && BatchOk(r.loop, es) && BatchFresh(r, es) && Careful(r.loop, es)
    ensures Good(DispatchAll(r, es))
    decreases |es|
  {
    if es != [] {
      CarefulParts(r.loop, es);
      DispatchKeeps(r, es[0]);
      RestReported(r, es);
      SameCare(r.loop, DispatchOne(r, es[0]).loop, es[1..]);
      BatchKeeps(DispatchOne(r, es[0]), es[1..]);
    }
  }

  lemma TurnFollows(r: Run, w: Wait)
    requires Consistent(r.loop) && Legal(r, [w])
    ensures var r' := Turn(r, w).0; Consistent(r'.loop) && Follows(r.loop, r'.loop) && r.log <= r'.log
  {
    CallsFollow(r, w.others);
    if w.Batch? {
      BatchFollows(Calls(r, w.others), w.events);
    }
  }

  lemma CarefulTurn(r: Run, w: Wait)
    ensures CarefulRun(r, [w]) <==> (w.Batch? ==> Careful(Calls(r, w.others).loop, w.events))
  {
  }

  /** One turn keeps records and order exactly when it is careful. */
  lemma TurnKeeps(r: Run, w: Wait)
    requires Good(r) && Legal(r, [w])
    ensures CarefulRun(r, [w]) ==> Good(Turn(r, w).0)
    ensures !CarefulRun(r, [w]) ==> !Clean(r, Turn(r, w).0)
  {
    var r0 := Calls(r, w.others);
    CarefulTurn(r, w);
    CallsFollow(r, w.others);
    SettledStays(r.log, r.loop, r0.loop);
    if w.Batch? {
      BatchSafeExactly(r0, w.events);
      if Careful(r0.loop, w.events) {
        BatchKeeps(r0, w.events);
      }
    }
  }

  lemma {:induction false} RunFollows(r: Run, ws: seq<Wait>)
    requires Consistent(r.loop) && Legal(r, ws)
    ensures var r' := EvloopRun(r, ws).0; Consistent(r'.loop) && r.log <= r'.log
    decreases |ws|
  {
    if ws != [] {
      assert Legal(r, [ws[0]]);
      TurnFollows(r, ws[0]);
      var (r', x) := Turn(r, ws[0]);
      if x.Running? {
        RunFollows(r', ws[1..]);
      }
    }
  }

  lemma CarefulRunParts(r: Run, ws: seq<Wait>)
    requires ws != []
    ensures CarefulRun(r, ws) <==>
            && CarefulRun(r, [ws[0]])
            && (Turn(r, ws[0]).1.Running? ==> CarefulRun(Turn(r, ws[0]).0, ws[1..]))
  {
  }

  /** Over every run: the records agree throughout, and the callbacks are in order, with no use of a removed
      context, exactly when nobody removes a descriptor too early in any batch. */
  lemma {:induction false} RunKeeps(r: Run, ws: seq<Wait>)
    requires Good(r) && Legal(r, ws)
    ensures var r' := EvloopRun(r, ws).0;
            && Consistent(r'.loop)
            && (InOrder(r'.log) <==> CarefulRun(r, ws))
            && (CarefulRun(r, ws) ==> Good(r'))
    decreases |ws|
  {
    RunFollows(r, ws);
    if ws != [] {
      assert Legal(r, [ws[0]]);
      TurnKeeps(r, ws[0]);
      TurnFollows(r, ws[0]);
      CarefulRunParts(r, ws);
      var (r', x) := Turn(r, ws[0]);
      if x.Running? && CarefulRun(r, [ws[0]]) {
        RunKeeps(r', ws[1..]);
      } else if x.Running? {
        RunFollows(r', ws[1..]);
        NotCleanAnyMore(r, r', EvloopRun(r, ws).0);
      }
    }
  }

  /** From the empty loop, with registrations coming from callbacks and from other threads. */
  lemma EveryRunInOrder(ws: seq<Wait>)
    requires Legal(BEGIN, ws)
    ensures var r := EvloopRun(BEGIN, ws).0;
            Consistent(r.loop) && (InOrder(r.log) <==> CarefulRun(BEGIN, ws))
  {
    RunKeeps(BEGIN, ws);
  }

  // ---- Every event gets its callbacks

  function DataNodes(log: seq<Item>): seq<Node> {
    if log == [] then []
    else DataNodes(log[..|log| - 1])
         + (var x := log[|log| - 1]; if x.Data? then [x.node] else [])
  }

  function NodesOf(es: seq<Event>): seq<Node> {
    if es == [] then [] else NodesOf(es[..|es| - 1]) + [es[|es| - 1].node]
  }

  lemma DataNodesSnoc(log: seq<Item>, x: Item)
    ensures DataNodes(log + [x]) == DataNodes(log) + if x.Data? then [x.node] else []
  {
  }

  lemma NodesOfSnoc(es: seq<Event>, e: Event)
    ensures NodesOf(es + [e]) == NodesOf(es) + [e.node]
  {
  }

  /** The data callbacks made are those of the events dispatched, in the same order. */
  ghost predicate Mirrors(r: Run) {
    DataNodes(r.log) == NodesOf(r.done)
  }

  lemma DueNodes(log: seq<Item>, l: Loop, e: Event)
    requires e.fd in l.polled
    ensures DataNodes(log + Due(l, e)) == DataNodes(log) + [e.node]
  {
    var data := Data(e.node, l.polled[e.fd].ctx.once);
    DataNodesSnoc(log, data);
    if CallsClosed(l, e) {
      DataNodesSnoc(log + [data], Closed(e.node));
      assert log + Due(l, e) == log + [data] + [Closed(e.node)];
    }
  }

  lemma DispatchMirrors(r: Run, e: Event)
    requires Consistent(r.loop) && Mirrors(r) && Reported(r.loop, e) && EventFresh(r, e) && !CutsItself(r.loop, e)
    ensures Mirrors(DispatchOne(r, e))
  {
    DispatchWatched(r, e, e.fd);
    DispatchFollows(r, e);
    DueNodes(r.log, r.loop, e);
    NodesOfSnoc(r.done, e);
  }

  lemma {:induction false} BatchMirrors(r: Run, es: seq<Event>)
    requires Consistent(r.loop) && Mirrors(r) && BatchOk(r.loop, es) && BatchFresh(r, es) && Careful(r.loop, es)
    ensures Mirrors(DispatchAll(r, es))
    decreases |es|
  {
    if es != [] {
      CarefulParts(r.loop, es);
      DispatchMirrors(r, es[0]);
      DispatchFollows(r, es[0]);
      RestReported(r, es);
      SameCare(r.loop, DispatchOne(r, es[0]).loop, es[1..]);
      BatchMirrors(DispatchOne(r, es[0]), es[1..]);
    }
  }

  lemma {:induction false} RunMirrors(r: Run, ws: seq<Wait>)
    requires Consistent(r.loop) && Mirrors(r) && Legal(r, ws) && CarefulRun(r, ws)
    ensures Mirrors(EvloopRun(r, ws).0)
    decreases |ws|
  {
    if ws != [] {
      assert Legal(r, [ws[0]]);
      TurnFollows(r, ws[0]);
      CallsFollow(r, ws[0].others);
      if ws[0].Batch? {
        BatchMirrors(Calls(r, ws[0].others), ws[0].events);
      }
      var (r', x) := Turn(r, ws[0]);
      if x.Running? {
        RunMirrors(r', ws[1..]);
      }
    }
  }

  /** In every run in which nobody removes too early, each dispatched event has had its data callback, once
      and in order. */
  lemma EveryEventCallsBack(ws: seq<Wait>)
    requires Legal(BEGIN, ws) && CarefulRun(BEGIN, ws)
    ensures var r := EvloopRun(BEGIN, ws).0; DataNodes(r.log) == NodesOf(r.done)
  {
    RunMirrors(BEGIN, ws);
  }
}
