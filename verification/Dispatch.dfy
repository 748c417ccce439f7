/** The event loop over whole runs: batches from epoll, callbacks that change the registrations, hang-ups,
    stop and shutdown. */
module Dispatch {
  import opened Registry

  /** An event as epoll_wait reports it, and what is done to the loop around it: `before` by other threads
      since the previous event, `dataOps` from the data callback on and `closedOps` from the closed callback
      on, by the callback itself or by other threads. `node` is the pointer stored at registration; `hangup`
      is EPOLLRDHUP. */
  datatype Event = Event(fd: Fd, node: Node, hangup: bool, before: seq<Op>, dataOps: seq<Op>, closedOps: seq<Op>)

  /** What epoll_wait returns: events, -1 with EINTR, or -1 with another error. `others` is what other
      threads, or cb_init, do to the loop until then. */
  datatype Wait =
    | Batch(others: seq<Op>, events: seq<Event>)
    | Interrupted(others: seq<Op>)
    | Failed(others: seq<Op>)

  /** Callbacks made, by registration. Dangling stands for a use of a context that is gone. */
  datatype Item = Data(node: Node, once: bool) | Closed(node: Node) | Dangling(node: Node)

  /** The loop, ev_should_stop, the callbacks so far and the events dispatched so far. */
  datatype Run = Run(loop: Loop, stop: bool, log: seq<Item>, done: seq<Event>)

  const BEGIN: Run := Run(NO_FDS, false, [], [])

  datatype Exit = Running | Stopped | Fatal

  /** The pointer in the event still points to the context it was registered with. */
  predicate Live(l: Loop, e: Event) {
    e.fd in l.polled && l.polled[e.fd].node == e.node
  }

  function Calls(r: Run, ops: seq<Op>): Run
    decreases |ops|
  {
    if ops == [] then r
    else Calls(r.(loop := Apply(r.loop, ops[0]), stop := r.stop || ops[0].Stop?), ops[1..])
  }

  function Note(r: Run, item: Item): Run {
    r.(log := r.log + [item])
  }

  /** process_event: the data callback; that of a once-signal goes on to remove its own descriptor. */
  function ProcessEvent(r: Run, e: Event): Run {
    if !Live(r.loop, e) then Note(r, Dangling(e.node))
    else
      var ctx := r.loop.polled[e.fd].ctx;
      var r' := Calls(Note(r, Data(e.node, ctx.once)), e.dataOps);
      if ctx.once then r'.(loop := Remove(r'.loop, ctx.fd)) else r'
  }

  /** The hang-up branch of the dispatch loop: the closed callback, if any, then remove_fd. */
  function HangUp(r: Run, e: Event): Run {
    if !Live(r.loop, e) then Note(r, Dangling(e.node))
    else
      var r' := if r.loop.polled[e.fd].ctx.onClosed
                then Calls(Note(r, Closed(e.node)), e.closedOps) else r;
      if !Live(r'.loop, e) then Note(r', Dangling(e.node))
      else r'.(loop := Remove(r'.loop, r'.loop.polled[e.fd].ctx.fd))
  }

  function DispatchOne(r: Run, e: Event): Run {
    var r' := ProcessEvent(Calls(r, e.before), e);
    var r'' := if e.hangup then HangUp(r', e) else r';
    r''.(done := r''.done + [e])
  }

  function DispatchAll(r: Run, es: seq<Event>): Run
    decreases |es|
  {
    if es == [] then r else DispatchAll(DispatchOne(r, es[0]), es[1..])
  }

  /** One turn of the while loop of evloop_run. */
  function Turn(r: Run, w: Wait): (Run, Exit) {
    var r' := Calls(r, w.others);
    match w
    case Batch(_, es) =>
      var r'' := DispatchAll(r', es);
      (r'', if r''.stop && es == [] then Stopped else Running)
    case Interrupted(_) => (r', Running)
    case Failed(_) => (r', Fatal)
  }

  /** The final loop: close every open descriptor. */
  function CloseAll(r: Run): Run {
    r.(loop := r.loop.(closed := r.loop.closed + r.loop.open))
  }

  /** evloop_run on what the waits will return; still Running when they do not suffice to end it. */
  function EvloopRun(r: Run, ws: seq<Wait>): (Run, Exit)
    decreases |ws|
  {
    if ws == [] then (r, Running)
    else
      var (r', x) := Turn(r, ws[0]);
      match x
      case Running => EvloopRun(r', ws[1..])
      case Stopped => (CloseAll(r'), Stopped)
      case Fatal => (r', Fatal)
  }

  // ---- What the kernel is assumed to do

  /** A new registration is for a descriptor that is not watched. Its number may be one that the kernel once
      refused, whose context is then overwritten in place. */
  predicate Fresh(l: Loop, ops: seq<Op>)
    decreases |ops|
  {
    ops == [] || ((ops[0].Add? ==> ops[0].ctx.fd !in l.interest) && Fresh(Apply(l, ops[0]), ops[1..]))
  }

  predicate EventFresh(r: Run, e: Event) {
    && Fresh(r.loop, e.before)
    && var r' := Calls(r, e.before);
    && Fresh(r'.loop, e.dataOps)
    && (e.hangup ==> Fresh(ProcessEvent(r', e).loop, e.closedOps))
  }

  predicate BatchFresh(r: Run, es: seq<Event>)
    decreases |es|
  {
    es == [] || (EventFresh(r, es[0]) && BatchFresh(DispatchOne(r, es[0]), es[1..]))
  }

  /** The event belongs to a watched descriptor; an eventfd never hangs up. */
  predicate Reported(l: Loop, e: Event) {
    && e.fd in l.interest && l.interest[e.fd] == e.node
    && (e.fd in l.polled && l.polled[e.fd].ctx.once ==> !e.hangup)
  }

  /** A batch names distinct watched descriptors. */
  predicate BatchOk(l: Loop, es: seq<Event>) {
    && (forall i | 0 <= i < |es| :: Reported(l, es[i]))
    && (forall i, j | 0 <= i < j < |es| :: es[i].fd != es[j].fd)
  }

  predicate Legal(r: Run, ws: seq<Wait>)
    decreases |ws|
  {
    ws == [] ||
    (&& Fresh(r.loop, ws[0].others)
     && (ws[0].Batch? ==> var r' := Calls(r, ws[0].others);
                          BatchOk(r'.loop, ws[0].events) && BatchFresh(r', ws[0].events))
     && (Turn(r, ws[0]).1.Running? ==> Legal(Turn(r, ws[0]).0, ws[1..])))
  }

  // ---- What handlers and other threads should not do

  predicate Removes(ops: seq<Op>, fd: Fd) {
    Del(fd) in ops
  }

  predicate CallsClosed(l: Loop, e: Event) {
    e.hangup && e.fd in l.polled && l.polled[e.fd].ctx.onClosed
  }

  /** Everything done to the loop around one event. */
  function OpsOf(l: Loop, e: Event): seq<Op> {
    e.before + e.dataOps + if CallsClosed(l, e) then e.closedOps else []
  }

  /** The descriptor of an event is removed before the loop has finished with it: before its data callback,
      or, when the event carries a hang-up, before the removal the loop does itself. */
  predicate CutsItself(l: Loop, e: Event) {
    || Removes(e.before, e.fd)
    || (e.hangup && Removes(e.dataOps, e.fd))
    || (CallsClosed(l, e) && Removes(e.closedOps, e.fd))
  }

  /** Nobody removes a descriptor whose event of this batch is still to be dispatched or finished. */
  predicate Careful(l: Loop, es: seq<Event>) {
    && (forall i | 0 <= i < |es| :: !CutsItself(l, es[i]))
    && (forall i, j | 0 <= i < j < |es| :: !Removes(OpsOf(l, es[i]), es[j].fd))
  }

  predicate CarefulRun(r: Run, ws: seq<Wait>)
    decreases |ws|
  {
    ws == [] ||
    (&& (ws[0].Batch? ==> Careful(Calls(r, ws[0].others).loop, ws[0].events))
     && (Turn(r, ws[0]).1.Running? ==> CarefulRun(Turn(r, ws[0]).0, ws[1..])))
  }
}
