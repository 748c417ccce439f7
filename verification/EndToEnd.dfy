/** The guarantees of the framing protocol in every reachable state. */
module EndToEnd {
  import opened Decimal
  import opened Framing
  import opened Reassembly
  import opened SendProtocol
  import opened ChannelInvariant
  import opened SendInvariant
  import opened Routes

  /** `s` is reached from the start by some run of small messages in which no send misses the connection for
      which its thread holds the mutex. */
  ghost predicate Reachable(s: State) {
    exists run :: Legal(Intended, START, run) && ReachedBy(s, run)
  }

  ghost predicate ReachedBy(s: State, run: seq<Action>) {
    Possible(Intended, START, run) && s == Exec(Intended, START, run)
  }

  lemma ReachableInv(s: State)
    requires Reachable(s)
    ensures Inv(s)
  {
    var run :| Legal(Intended, START, run) && ReachedBy(s, run);
    StartInv();
    RunKeeps(START, run);
  }

  /** That condition is the exact one: over every run of small messages, in every state of it, all
      connections carry whole frames and at most the header of the lock holder, if and only if the run is
      one of these. */
  lemma FramesWholeExactly(run: seq<Action>)
    requires Possible(Intended, START, run) && forall i | 0 <= i < |run| :: Small(run[i])
    ensures AlwaysWhole(START, run) <==> Legal(Intended, START, run)
  {
    StartInv();
    AlwaysWholeExactly(START, run);
  }

  /** It holds whenever no step changes the table entry or the socket by which a call under way has found its
      descriptor, or gives a new connection a number whose mutex is held. Two threads may well connect for the
      same port meanwhile, each with a handle of its own. */
  lemma SparingReaches(run: seq<Action>)
    requires Sparing(START, run)
    ensures Possible(Intended, START, run) && Reachable(Exec(Intended, START, run))
    ensures Routed(Exec(Intended, START, run))
  {
    StartInv();
    SparingIsLegal(START, run);
    assert ReachedBy(Exec(Intended, START, run), run);
  }

  /** Frame atomicity: whatever the threads do and whichever branches they take, what is on an open connection
      is the frames of the messages in lock order; the last one may have only its header there, or nothing,
      while its sender still holds the mutex. */
  lemma FrameAtomicity(s: State, fd: Fd)
    requires Reachable(s) && fd in s.open
    ensures s.open[fd] < |s.channels|
    ensures var ch := s.channels[s.open[fd]]; var fs := Frames(ch.order);
            && (fd !in s.mutexes ==> ch.written == Flatten(fs))
            && (fd in s.mutexes ==>
                  var p := PhaseOf(s, s.mutexes[fd]);
                  && p.Holding() && p.fd == fd
                  && if p.place != At(s.open[fd]) then ch.written == Flatten(fs)
                     else && |fs| > 0 && ch.order[|fs| - 1] == Sent(s.mutexes[fd], p.frame)
                          && ch.written == Flatten(fs[..|fs| - 1]) + if p.HeaderSent? then p.frame.header else [])
  {
    ReachableInv(s);
    var ch, lock := s.channels[s.open[fd]], LockOf(s, fd);
    WrittenIsFrames(ch, lock);
    NothingUnfinished(Flatten(Frames(ch.order)));
  }

  /** On every connection, closed ones included, there are whole frames in lock order, but for the last one,
      which may have been cut short when the connection was closed. */
  lemma FramesOfAll(s: State, c: Cid)
    requires Reachable(s) && c < |s.channels|
    ensures var ch := s.channels[c]; var fs := Frames(ch.order);
            || ch.written == Flatten(fs)
            || (fs != [] && ch.written in {Flatten(fs[..|fs| - 1]), Flatten(fs[..|fs| - 1]) + fs[|fs| - 1].header})
  {
    ReachableInv(s);
    var ch := s.channels[c];
    assert AddsUp(ch);
    var lock :| ChannelOk(ch, lock);
    WrittenIsFrames(ch, lock);
    NothingUnfinished(Flatten(Whole(ch, lock)));
  }

  /** End to end, on every connection: the peer has been given a prefix of the messages in lock order, each
      whole and unchanged; every byte written is accounted for; and what waits in the peer's buffer is the
      beginning of the next message. */
  lemma DeliveredInOrder(s: State, c: Cid)
    requires Reachable(s) && c < |s.channels|
    ensures var ch := s.channels[c]; var k := |ch.delivered|;
            && ch.delivered <= Frames(ch.order)
            && ch.written == Flatten(ch.delivered) + Pending(ch.conn) + ch.inflight
            && (Pending(ch.conn) != [] ==> k < |ch.order| && Pending(ch.conn) < ch.order[k].frame.Bytes())
  {
    ReachableInv(s);
    assert AddsUp(s.channels[c]);
    var lock :| ChannelOk(s.channels[c], lock);
    DeliveredIsPrefix(s.channels[c], lock);
    PendingIsPartOfNext(s.channels[c], lock);
  }

  /** ... and on an open one all of them, once the wire is empty and nobody is between the two sends. */
  lemma AllDelivered(s: State, fd: Fd)
    requires Reachable(s) && fd in s.open && fd !in s.mutexes
    requires s.open[fd] < |s.channels| && s.channels[s.open[fd]].inflight == []
    ensures var ch := s.channels[s.open[fd]]; ch.delivered == Frames(ch.order) && ch.conn.pos == 0
  {
    ReachableInv(s);
    DeliveredIsAll(s.channels[s.open[fd]]);
  }

  lemma {:induction false} FramesOfPrefix(order: seq<Sent>, k: nat, t: Tid)
    requires k <= |order|
    ensures FramesOf(order[..k], t) <= FramesOf(order, t)
    decreases |order|
  {
    if k == |order| {
      assert order[..k] == order;
    } else {
      var init := order[..|order| - 1];
      assert init[..k] == order[..k];
      FramesOfPrefix(init, k, t);
    }
  }

  /** Each thread's own order survives: its messages on a connection are those of its calls that got the mutex
      for it, in the order of these calls; the delivered ones are the first ones. */
  lemma ThreadOrder(s: State, t: Tid, c: Cid)
    requires Reachable(s) && c < |s.channels|
    ensures var ch := s.channels[c]; var calls := CallsTo(CallsOf(s, t), c);
            && FramesOf(ch.order, t) == calls
            && |ch.delivered| <= |ch.order|
            && FramesOf(ch.order[..|ch.delivered|], t) <= calls
  {
    ReachableInv(s);
    assert InProgramOrder(s, t, c);
    var ch := s.channels[c];
    DeliveredInOrder(s, c);
    FramesOfPrefix(ch.order, |ch.delivered|, t);
  }

  /** Two threads are never between their sends under the mutex of the same descriptor. */
  lemma ExclusiveSends(s: State, t: Tid, u: Tid)
    requires Reachable(s) && PhaseOf(s, t).Holding() && PhaseOf(s, u).Holding()
    ensures PhaseOf(s, u).fd == PhaseOf(s, t).fd ==> t == u
  {
    ReachableInv(s);
  }

  /** Each thread writes only to the descriptor whose mutex it holds, and the connection table names it, as
      long as no step changes the route of a call or takes the name of a descriptor in use out of the table. */
  lemma SendsToNamed(run: seq<Action>, t: Tid)
    requires Stable(START, run)
    ensures Possible(Intended, START, run) && Reachable(Exec(Intended, START, run))
    ensures var s := Exec(Intended, START, run); var p := PhaseOf(s, t);
            p.Holding() ==> Found(s, p.route) == p.fd && p.fd in s.table.Values
  {
    StableKeepsNamed(START, run);
    SparingReaches(run);
    var s := Exec(Intended, START, run);
    if PhaseOf(s, t).Holding() {
      assert RouteHolds(s, PhaseOf(s, t));
    }
  }

  // ---- The receiver as written

  /** As long as no read is one of its two faulty cases, the code as written makes the same steps, so all of
      the above holds for it. */
  lemma {:induction false} AsWrittenRun(s: State, run: seq<Action>)
    requires Legal(AsWritten, s, run) && Possible(AsWritten, s, run) && ReadsFaultFree(s, run)
    ensures Legal(Intended, s, run) && Possible(Intended, s, run)
    ensures Exec(AsWritten, s, run) == Exec(Intended, s, run)
    decreases |run|
  {
    if run != [] {
      var a := run[0];
      if a.Read? {
        VariantsAgree(s.channels[a.conn].conn, a.received);
      }
      assert Next(AsWritten, s, a) == Next(Intended, s, a);
      AsWrittenRun(Next(AsWritten, s, a), run[1..]);
    }
  }

  lemma AsWrittenIsReachable(run: seq<Action>)
    requires Legal(AsWritten, START, run) && Possible(AsWritten, START, run) && ReadsFaultFree(START, run)
    ensures Reachable(Exec(AsWritten, START, run))
  {
    AsWrittenRun(START, run);
    assert ReachedBy(Exec(AsWritten, START, run), run);
  }

  /** Every byte written on any connection is delivered, pending or in flight. */
  ghost predicate AllBalanced(s: State) {
    forall c | 0 <= c < |s.channels| :: Balanced(s.channels[c])
  }

  /** A read keeps the balance of its connection exactly when it is not faulty. */
  lemma ReadBalanceExactly(ch: Channel, r: Recv)
    requires Balanced(ch) && CanRead(ch, r)
    ensures Balanced(ReadFrom(AsWritten, ch, r)) <==> !Faulty(ch.conn, r)
  {
    var o := OnData(AsWritten, ch.conn, r);
    var data := if r.Got? then r.data else [];
    var more := ch.inflight[|data|..];
    assert ch.inflight == data + more;
    AsWrittenConserves(ch.conn, r);
    FlattenAppend(ch.delivered, o.delivered);
    BalanceMoves(Flatten(ch.delivered), Flatten(o.delivered), Pending(o.conn), Pending(ch.conn), data, more);
  }

  lemma BalanceMoves<T>(done: seq<T>, d: seq<T>, p': seq<T>, p: seq<T>, data: seq<T>, more: seq<T>)
    ensures done + d + p' + more == done + p + (data + more) <==> d + p' == p + data
  {
    var x, y := done + d + p' + more, done + p + (data + more);
    assert x == done + (d + p') + more && y == done + (p + data) + more;
    if x == y {
      assert |d + p'| == |p + data|;
      assert d + p' == x[|done|..|done| + |d + p'|] == y[|done|..|done| + |p + data|] == p + data;
    }
  }

  /** So for every step of the code as written, sends that miss included. */
  lemma StepBalanceExactly(s: State, a: Action)
    requires AllBalanced(s) && Enabled(s, a)
    ensures AllBalanced(Next(AsWritten, s, a)) <==> (a.Read? ==> !Faulty(s.channels[a.conn].conn, a.received))
  {
    var s' := Next(AsWritten, s, a);
    match a
    case Read(c, r) =>
      ReadBalanceExactly(s.channels[c], r);
      assert s'.channels[c] == ReadFrom(AsWritten, s.channels[c], r);
    case SendHeader(t) => WriteBalance(s, Found(s, PhaseOf(s, t).route), PhaseOf(s, t).frame.header);
    case SendPayload(t) => WriteBalance(s, Found(s, PhaseOf(s, t).route), PhaseOf(s, t).frame.payload);
    case _ =>
  }

  lemma WriteBalance(s: State, fd: Fd, bytes: seq<byte>)
    requires AllBalanced(s)
    ensures forall c | 0 <= c < |s.channels| :: Balanced(Write(s, fd, bytes)[c])
  {
    if Where(s, fd).At? {
      AppendBalance(s.channels[Where(s, fd).conn], bytes);
    }
  }

  ghost predicate AlwaysBalanced(s: State, run: seq<Action>)
    requires Possible(AsWritten, s, run)
    decreases |run|
  {
    AllBalanced(s) && (run == [] || AlwaysBalanced(Next(AsWritten, s, run[0]), run[1..]))
  }

  /** Over every run of the code as written, bytes are conserved on all connections in every state exactly when
      no read of the run is faulty. */
  lemma {:induction false} AlwaysBalancedExactly(s: State, run: seq<Action>)
    requires AllBalanced(s) && Possible(AsWritten, s, run)
    ensures AlwaysBalanced(s, run) <==> ReadsFaultFree(s, run)
    decreases |run|
  {
    if run != [] {
      StepBalanceExactly(s, run[0]);
      if AllBalanced(Next(AsWritten, s, run[0])) {
        AlwaysBalancedExactly(Next(AsWritten, s, run[0]), run[1..]);
      }
    }
  }
}
