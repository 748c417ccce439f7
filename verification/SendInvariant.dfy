/** What every step of every run keeps, whatever the interleaving of the sender threads. */
module SendInvariant {
  import opened Decimal
  import opened Framing
  import opened WireHeader
  import opened Reassembly
  import opened SendProtocol
  import opened ChannelInvariant

  /** The state of a mutex as it concerns the connection its descriptor stands for: one that was taken for an
      earlier connection of the same number does not. */
  function LockOf(s: State, fd: Fd): Lock {
    if fd !in s.mutexes then Free
    else
      var p := PhaseOf(s, s.mutexes[fd]);
      if p.Holding() && p.place.At? && p.place == Where(s, fd)
      then Held(s.mutexes[fd], p.HeaderSent?, p.frame) else Free
  }

  /** A descriptor stands for a connection, and no connection has two. */
  ghost predicate OpenOk(s: State) {
    && (forall fd | fd in s.open :: s.open[fd] < |s.channels|)
    && (forall fd, g | fd in s.open && g in s.open && s.open[fd] == s.open[g] :: fd == g)
  }

  /** A mutex is held by exactly the thread that is between its two sends under it. */
  ghost predicate MutexOk(s: State) {
    && (forall fd | fd in s.mutexes :: PhaseOf(s, s.mutexes[fd]).Holding() && PhaseOf(s, s.mutexes[fd]).fd == fd)
    && (forall t | PhaseOf(s, t).Holding() :: PhaseOf(s, t).fd in s.mutexes && s.mutexes[PhaseOf(s, t).fd] == t)
  }

  /** A call under way has a recognisable frame, and the connection for which it holds a mutex has had no other
      descriptor. */
  ghost predicate PhaseOk(s: State, p: Phase) {
    && (!p.Idle? ==> Sound(p.frame))
    && (p.Holding() && p.place.At? ==>
          p.place.conn < |s.channels| && forall fd | fd in s.open && s.open[fd] == p.place.conn :: fd == p.fd)
  }

  ghost predicate PhasesOk(s: State) {
    forall t :: PhaseOk(s, PhaseOf(s, t))
  }

  /** What has been written, delivered and so on adds up, for some state of the mutex. */
  ghost predicate AddsUp(ch: Channel) {
    exists lock :: ChannelOk(ch, lock)
  }

  /** It adds up on all connections, and on the open ones for the actual state of the mutex. */
  ghost predicate ChannelsOk(s: State) {
    && (forall c | 0 <= c < |s.channels| :: AddsUp(s.channels[c]))
    && (forall fd | fd in s.open && s.open[fd] < |s.channels| :: ChannelOk(s.channels[s.open[fd]], LockOf(s, fd)))
  }

  /** Frame atomicity: every open connection carries whole frames in lock order, and at most the header of the
      message whose sender holds the mutex. */
  ghost predicate FramesWhole(s: State) {
    forall fd | fd in s.open && s.open[fd] < |s.channels| :: WholeFrames(s.channels[s.open[fd]], LockOf(s, fd))
  }

  // ---- The order of one thread's calls

  function FramesOf(order: seq<Sent>, t: Tid): seq<Frame> {
    if order == [] then []
    else FramesOf(order[..|order| - 1], t)
         + (var x := order[|order| - 1]; if x.tid == t then [x.frame] else [])
  }

  function CallsTo(calls: seq<Call>, c: Cid): seq<Frame> {
    if calls == [] then []
    else CallsTo(calls[..|calls| - 1], c)
         + (var x := calls[|calls| - 1]; if x.place == At(c) then [x.frame] else [])
  }

  /** A thread's messages on a connection are in the order of its own calls. */
  ghost predicate InProgramOrder(s: State, t: Tid, c: Cid) {
    c < |s.channels| ==> CallsTo(CallsOf(s, t), c) == FramesOf(s.channels[c].order, t)
  }

  /** The latest call of a thread that is yet to get its mutex. */
  ghost predicate CallOk(s: State, t: Tid) {
    var p, calls := PhaseOf(s, t), CallsOf(s, t);
    && (p.Unlocked() ==> calls != [] && calls[|calls| - 1] == Call(Nowhere, p.frame))
    && (forall i | 0 <= i < |calls| && calls[i].place.At? :: calls[i].place.conn < |s.channels|)
  }

  ghost predicate OrderOk(s: State) {
    (forall t, c :: InProgramOrder(s, t, c)) && (forall t :: CallOk(s, t))
  }

  lemma FramesOfSnoc(order: seq<Sent>, x: Sent, t: Tid)
    ensures FramesOf(order + [x], t) == FramesOf(order, t) + if x.tid == t then [x.frame] else []
  {
  }

  lemma CallsToSnoc(calls: seq<Call>, x: Call, c: Cid)
    ensures CallsTo(calls + [x], c) == CallsTo(calls, c) + if x.place == At(c) then [x.frame] else []
  {
  }

  lemma {:induction false} CallsToNew(calls: seq<Call>, c: Cid)
    requires forall i | 0 <= i < |calls| && calls[i].place.At? :: calls[i].place.conn != c
    ensures CallsTo(calls, c) == []
  {
    if calls != [] {
      CallsToNew(calls[..|calls| - 1], c);
    }
  }

  ghost predicate Inv(s: State) {
    OpenOk(s) && MutexOk(s) && PhasesOk(s) && ChannelsOk(s) && OrderOk(s)
  }

  lemma StartInv()
    ensures Inv(START)
  {
  }

  // ---- Steps that touch no connection

  /** The thread `t` moves to phase `p`, and nobody else moves. */
  ghost predicate Moves(s: State, s': State, t: Tid, p: Phase) {
    PhaseOf(s', t) == p && forall u | u != t :: PhaseOf(s', u) == PhaseOf(s, u)
  }

  /** Lock holders stay where they are. */
  ghost predicate HoldersStay(s: State, s': State) {
    forall t | PhaseOf(s, t).Holding() || PhaseOf(s', t).Holding() :: PhaseOf(s', t) == PhaseOf(s, t)
  }

  lemma LocksStay(s: State, s': State)
    requires MutexOk(s) && s'.mutexes == s.mutexes && HoldersStay(s, s')
    ensures MutexOk(s')
    ensures forall fd | Where(s', fd) == Where(s, fd) :: LockOf(s', fd) == LockOf(s, fd)
  {
  }

  lemma SameConnections(s: State, s': State)
    requires OpenOk(s) && MutexOk(s) && ChannelsOk(s) && HoldersStay(s, s')
    requires s'.open == s.open && s'.channels == s.channels && s'.mutexes == s.mutexes
    ensures OpenOk(s') && MutexOk(s') && ChannelsOk(s')
  {
    LocksStay(s, s');
    assert forall fd :: Where(s', fd) == Where(s, fd);
  }

  lemma PhasesKept(s: State, s': State, t: Tid, p: Phase)
    requires PhasesOk(s) && Moves(s, s', t, p) && PhaseOk(s', p)
    requires s'.open == s.open && |s'.channels| == |s.channels|
    ensures PhasesOk(s')
  {
    forall u
      ensures PhaseOk(s', PhaseOf(s', u))
    {
      assert PhaseOk(s, PhaseOf(s, u));
    }
  }

  /** Only `t` moves, to a place where its call is still the latest one, or none is pending. */
  lemma CallsKept(s: State, s': State, t: Tid, p: Phase)
    requires OrderOk(s) && Moves(s, s', t, p) && s'.calls == s.calls && s'.channels == s.channels
    requires p.Unlocked() ==> PhaseOf(s, t).Unlocked() && p.frame == PhaseOf(s, t).frame
    ensures OrderOk(s')
  {
    forall u, c
      ensures InProgramOrder(s', u, c)
    {
      assert InProgramOrder(s, u, c);
    }
    forall u
      ensures CallOk(s', u)
    {
      assert CallOk(s, u);
    }
  }

  lemma EnterOrder(s: State, s': State, t: Tid, p: Phase, f: Frame)
    requires OrderOk(s) && Moves(s, s', t, p) && s'.channels == s.channels && p.Unlocked() && p.frame == f
    requires s'.calls == s.calls[t := CallsOf(s, t) + [Call(Nowhere, f)]]
    ensures OrderOk(s')
  {
    forall u, c
      ensures InProgramOrder(s', u, c)
    {
      assert InProgramOrder(s, u, c);
      CallsToSnoc(CallsOf(s, t), Call(Nowhere, f), c);
      assert CallsTo(CallsOf(s, t), c) + [] == CallsTo(CallsOf(s, t), c);
    }
    forall u
      ensures CallOk(s', u)
    {
      assert CallOk(s, u);
    }
  }

  lemma EnterKeeps(v: Variant, s: State, t: Tid, h: Handle, init: seq<byte>, payload: seq<byte>)
    requires Inv(s) && Enabled(s, Enter(t, h, init, payload)) && |payload| < SIZE_LIMIT
    ensures Inv(Next(v, s, Enter(t, h, init, payload)))
  {
    var s' := Next(v, s, Enter(t, h, init, payload));
    var f := Encode(init, payload);
    EncodeSound(init, payload);
    var p := Choose(s, h, f);
    assert Moves(s, s', t, p);
    PhasesKept(s, s', t, p);
    SameConnections(s, s');
    EnterOrder(s, s', t, p, f);
  }

  /** A thread that holds no mutex moves on without taking one. */
  lemma QuietMove(s: State, s': State, t: Tid, p: Phase)
    requires Inv(s) && Moves(s, s', t, p) && !PhaseOf(s, t).Holding() && !p.Holding()
    requires !p.Idle? ==> PhaseOf(s, t).Unlocked() && p.frame == PhaseOf(s, t).frame
    requires s'.open == s.open && s'.channels == s.channels && s'.mutexes == s.mutexes && s'.calls == s.calls
    ensures Inv(s')
  {
    assert PhaseOk(s, PhaseOf(s, t));
    PhasesKept(s, s', t, p);
    SameConnections(s, s');
    CallsKept(s, s', t, p);
  }

  lemma ConnectFailedKeeps(v: Variant, s: State, t: Tid)
    requires Inv(s) && Enabled(s, ConnectFailed(t))
    ensures Inv(Next(v, s, ConnectFailed(t)))
  {
    QuietMove(s, Next(v, s, ConnectFailed(t)), t, Idle);
  }

  lemma LookKeeps(v: Variant, s: State, t: Tid)
    requires Inv(s) && Enabled(s, Look(t))
    ensures Inv(Next(v, s, Look(t)))
  {
    QuietMove(s, Next(v, s, Look(t)), t, PhaseOf(Next(v, s, Look(t)), t));
  }

  // ---- Connections that come and go

  lemma NewAddsUp(size: nat)
    ensures ChannelOk(NewChannel(size), Free) && AddsUp(NewChannel(size))
  {
    assert ChannelOk(NewChannel(size), Free);
  }

  lemma OpenedPhases(s: State, s': State, fd: Fd)
    requires PhasesOk(s) && |s'.channels| == |s.channels| + 1 && s'.open == s.open[fd := |s.channels|]
    requires forall t :: !PhaseOf(s', t).Idle? ==> !PhaseOf(s, t).Idle? && PhaseOf(s', t).frame == PhaseOf(s, t).frame
    requires HoldersStay(s, s')
    ensures PhasesOk(s')
  {
    forall t
      ensures PhaseOk(s', PhaseOf(s', t))
    {
      assert PhaseOk(s, PhaseOf(s, t));
    }
  }

  /** The new connection starts with a free mutex, even when its number is one whose mutex is held. */
  lemma OpenedLocks(s: State, s': State, fd: Fd)
    requires OpenOk(s) && MutexOk(s) && PhasesOk(s) && HoldersStay(s, s')
    requires fd !in s.open && s'.mutexes == s.mutexes
    requires |s'.channels| == |s.channels| + 1 && s'.open == s.open[fd := |s.channels|]
    ensures OpenOk(s') && MutexOk(s') && LockOf(s', fd) == Free
    ensures forall g | g in s.open :: LockOf(s', g) == LockOf(s, g)
  {
    LocksStay(s, s');
    if fd in s.mutexes {
      assert PhaseOk(s, PhaseOf(s, s.mutexes[fd]));
    }
  }

  lemma OpenedChannels(s: State, s': State, fd: Fd, size: nat)
    requires OpenOk(s) && ChannelsOk(s) && fd !in s.open
    requires s'.channels == s.channels + [NewChannel(size)] && s'.open == s.open[fd := |s.channels|]
    requires LockOf(s', fd) == Free && forall g | g in s.open :: LockOf(s', g) == LockOf(s, g)
    ensures ChannelsOk(s')
  {
    NewAddsUp(size);
  }

  lemma OpenedOrder(s: State, s': State, size: nat)
    requires OrderOk(s) && s'.calls == s.calls && s'.channels == s.channels + [NewChannel(size)]
    requires forall t | PhaseOf(s', t).Unlocked() ::
               PhaseOf(s, t).Unlocked() && PhaseOf(s', t).frame == PhaseOf(s, t).frame
    ensures OrderOk(s')
  {
    forall t, c
      ensures InProgramOrder(s', t, c)
    {
      assert InProgramOrder(s, t, c) && CallOk(s, t);
      if c == |s.channels| {
        CallsToNew(CallsOf(s, t), c);
      }
    }
    forall t
      ensures CallOk(s', t)
    {
      assert CallOk(s, t);
    }
  }

  lemma OpenedKeeps(s: State, s': State, fd: Fd, size: nat)
    requires Inv(s) && fd !in s.open && HoldersStay(s, s') && s'.mutexes == s.mutexes && s'.calls == s.calls
    requires s'.channels == s.channels + [NewChannel(size)] && s'.open == s.open[fd := |s.channels|]
    requires forall t | !PhaseOf(s', t).Idle? && PhaseOf(s', t) != PhaseOf(s, t) ::
               PhaseOf(s, t).Unlocked() && PhaseOf(s', t).frame == PhaseOf(s, t).frame
    ensures Inv(s')
  {
    OpenedPhases(s, s', fd);
    OpenedLocks(s, s', fd);
    OpenedChannels(s, s', fd, size);
    OpenedOrder(s, s', size);
  }

  lemma ConnectedKeeps(v: Variant, s: State, t: Tid, fd: Fd, size: nat)
    requires Inv(s) && Enabled(s, Connected(t, fd, size))
    ensures Inv(Next(v, s, Connected(t, fd, size)))
  {
    var s' := Next(v, s, Connected(t, fd, size));
    assert Moves(s, s', t, Looking(ByConnect(PhaseOf(s, t).handle), PhaseOf(s, t).frame));
    OpenedKeeps(s, s', fd, size);
  }

  lemma AcceptedKeeps(v: Variant, s: State, port: Port, fd: Fd, size: nat)
    requires Inv(s) && Enabled(s, Accepted(port, fd, size))
    ensures Inv(Next(v, s, Accepted(port, fd, size)))
  {
    var s' := Next(v, s, Accepted(port, fd, size));
    assert forall t :: PhaseOf(s', t) == PhaseOf(s, t);
    OpenedKeeps(s, s', fd, size);
  }

  lemma ClosedConnections(s: State, s': State, fd: Fd)
    requires OpenOk(s) && MutexOk(s) && ChannelsOk(s) && s' == s.(open := s.open - {fd})
    ensures OpenOk(s') && MutexOk(s') && ChannelsOk(s')
  {
    LocksStay(s, s');
    assert forall g | g in s'.open :: Where(s', g) == Where(s, g);
  }

  lemma ClosedPhases(s: State, s': State, fd: Fd)
    requires PhasesOk(s) && s' == s.(open := s.open - {fd})
    ensures PhasesOk(s')
  {
    forall t
      ensures PhaseOk(s', PhaseOf(s', t))
    {
      assert PhaseOk(s, PhaseOf(s, t));
    }
  }

  lemma SameOrders(s: State, s': State)
    requires OrderOk(s) && s'.phases == s.phases && s'.calls == s.calls && |s'.channels| == |s.channels|
    requires forall c | 0 <= c < |s.channels| :: s'.channels[c].order == s.channels[c].order
    ensures OrderOk(s')
  {
    forall t, c
      ensures InProgramOrder(s', t, c)
    {
      assert InProgramOrder(s, t, c);
    }
    forall t
      ensures CallOk(s', t)
    {
      assert CallOk(s, t);
    }
  }

  lemma TableStepKeeps(v: Variant, s: State, a: Action)
    requires Inv(s) && (a.Dropped? || a.SetSocket?)
    ensures Inv(Next(v, s, a))
  {
    var s' := Next(v, s, a);
    forall t
      ensures PhaseOk(s', PhaseOf(s', t)) && PhaseOf(s', t) == PhaseOf(s, t)
    {
      assert PhaseOk(s, PhaseOf(s, t));
    }
    SameConnections(s, s');
    SameOrders(s, s');
  }

  /** Closing a descriptor takes it away from the sends under way, which go nowhere from then on. */
  lemma ClosedKeeps(v: Variant, s: State, fd: Fd)
    requires Inv(s)
    ensures Inv(Next(v, s, Closed(fd)))
  {
    var s' := Next(v, s, Closed(fd));
    ClosedConnections(s, s', fd);
    ClosedPhases(s, s', fd);
    SameOrders(s, s');
  }

  // ---- Steps of a send

  /** The thread `t` takes the mutex of `fd`, goes on under it, or gives it back. */
  lemma MutexMoves(s: State, s': State, t: Tid, fd: Fd, p: Phase)
    requires MutexOk(s) && Moves(s, s', t, p) && p != PhaseOf(s, t) && s'.open == s.open
    requires |s'.channels| == |s.channels|
    requires PhaseOf(s, t).Holding() ==> PhaseOf(s, t).fd == fd
    requires !PhaseOf(s, t).Holding() ==> fd !in s.mutexes
    requires p.Holding() ==> p.fd == fd && s'.mutexes == s.mutexes[fd := t]
    requires !p.Holding() ==> s'.mutexes == s.mutexes - {fd}
    ensures MutexOk(s')
    ensures forall g | g != fd :: LockOf(s', g) == LockOf(s, g)
    ensures LockOf(s', fd) == if p.Holding() && p.place.At? && p.place == Where(s, fd)
                              then Held(t, p.HeaderSent?, p.frame) else Free
  {
    assert forall g :: Where(s', g) == Where(s, g);
  }

  /** Only the connection `fd` stands for is touched. */
  lemma OneChannel(s: State, s': State, fd: Fd)
    requires OpenOk(s) && ChannelsOk(s) && s'.open == s.open && |s'.channels| == |s.channels|
    requires forall c | 0 <= c < |s.channels| && Where(s, fd) != At(c) :: s'.channels[c] == s.channels[c]
    requires forall g | g != fd :: LockOf(s', g) == LockOf(s, g)
    requires Where(s, fd).At? ==> ChannelOk(s'.channels[Where(s, fd).conn], LockOf(s', fd))
    ensures ChannelsOk(s')
  {
    forall c | 0 <= c < |s'.channels|
      ensures AddsUp(s'.channels[c])
    {
      assert AddsUp(s.channels[c]);
    }
  }

  lemma AcquireChannel(s: State, s': State, t: Tid, p: Phase)
    requires OpenOk(s) && ChannelsOk(s) && p.Waiting? && Sound(p.frame) && p.fd !in s.mutexes && s'.open == s.open
    requires s'.channels == Ordered(s, Where(s, p.fd), Sent(t, p.frame))
    requires forall g | g != p.fd :: LockOf(s', g) == LockOf(s, g)
    requires LockOf(s', p.fd) == if Where(s, p.fd).At? then Held(t, false, p.frame) else Free
    ensures ChannelsOk(s')
  {
    if Where(s, p.fd).At? {
      ChannelInvariant.AcquireKeeps(s.channels[Where(s, p.fd).conn], t, p.frame);
    }
    OneChannel(s, s', p.fd);
  }

  /** The latest call, so far nowhere, is now one to the connection `place`. */
  lemma ResolvedCalls(calls: seq<Call>, place: Place, f: Frame, c: Cid)
    requires calls != [] && calls[|calls| - 1] == Call(Nowhere, f)
    ensures CallsTo(Resolved(calls, place), c) == CallsTo(calls, c) + if place == At(c) then [f] else []
  {
    var init := calls[..|calls| - 1];
    CallsToSnoc(init, Call(place, f), c);
    assert CallsTo(calls, c) == CallsTo(init, c) + [] == CallsTo(init, c);
  }

  lemma AcquireOrderAt(s: State, s': State, t: Tid, p: Phase, place: Place, u: Tid, c: Cid)
    requires InProgramOrder(s, u, c) && CallOk(s, t) && p == PhaseOf(s, t) && p.Waiting?
    requires s'.channels == Ordered(s, place, Sent(t, p.frame))
    requires s'.calls == s.calls[t := Resolved(CallsOf(s, t), place)]
    ensures InProgramOrder(s', u, c)
  {
    if c < |s.channels| {
      ResolvedCalls(CallsOf(s, t), place, p.frame, c);
      FramesOfSnoc(s.channels[c].order, Sent(t, p.frame), u);
      assert FramesOf(s.channels[c].order, u) + [] == FramesOf(s.channels[c].order, u);
      assert CallsTo(CallsOf(s, t), c) + [] == CallsTo(CallsOf(s, t), c);
    }
  }

  lemma AcquireOrder(s: State, s': State, t: Tid, p: Phase)
    requires OrderOk(s) && p == PhaseOf(s, t) && p.Waiting?
    requires Moves(s, s', t, Locked(p.route, p.fd, Where(s, p.fd), p.frame))
    requires s'.channels == Ordered(s, Where(s, p.fd), Sent(t, p.frame))
    requires s'.calls == s.calls[t := Resolved(CallsOf(s, t), Where(s, p.fd))]
    ensures OrderOk(s')
  {
    assert CallOk(s, t);
    forall u, c
      ensures InProgramOrder(s', u, c)
    {
      assert InProgramOrder(s, u, c);
      AcquireOrderAt(s, s', t, p, Where(s, p.fd), u, c);
    }
    forall u
      ensures CallOk(s', u)
    {
      assert CallOk(s, u);
    }
  }

  lemma AcquireKeeps(v: Variant, s: State, t: Tid)
    requires Inv(s) && Enabled(s, Acquire(t))
    ensures Inv(Next(v, s, Acquire(t)))
  {
    var p := PhaseOf(s, t);
    var s' := Next(v, s, Acquire(t));
    var p' := Locked(p.route, p.fd, Where(s, p.fd), p.frame);
    assert PhaseOk(s, p);
    assert Moves(s, s', t, p');
    PhasesKept(s, s', t, p');
    MutexMoves(s, s', t, p.fd, p');
    AcquireChannel(s, s', t, p);
    AcquireOrder(s, s', t, p);
  }

  lemma AppendNothing(ch: Channel)
    ensures Append(ch, []) == ch
  {
  }

  /** A send that does not miss appends to the connection of its mutex, while that is open, and to no other. */
  lemma WriteOnTarget(s: State, p: Phase, bytes: seq<byte>)
    requires p.Holding() && (Finds(s, p) || bytes == [])
    ensures var chs := Write(s, Found(s, p.route), bytes);
            && (forall c | 0 <= c < |s.channels| && Live(s, p) != At(c) :: chs[c] == s.channels[c])
            && (Live(s, p).At? ==> chs[Live(s, p).conn] == Append(s.channels[Live(s, p).conn], bytes))
  {
    if bytes == [] {
      forall c | 0 <= c < |s.channels|
        ensures Append(s.channels[c], []) == s.channels[c]
      {
        AppendNothing(s.channels[c]);
      }
    }
  }

  lemma LockOfHolder(s: State, t: Tid)
    requires MutexOk(s) && PhaseOf(s, t).Holding()
    ensures var p := PhaseOf(s, t);
            LockOf(s, p.fd) == if Live(s, p).At? then Held(t, p.HeaderSent?, p.frame) else Free
  {
  }

  /** The mutexes after a send, wherever its bytes go. */
  lemma LocksAfterSend(v: Variant, s: State, a: Action)
    requires MutexOk(s) && Enabled(s, a) && (a.SendHeader? || a.SendPayload?)
    ensures var p, s' := PhaseOf(s, a.tid), Next(v, s, a);
            && MutexOk(s')
            && (forall g | g != p.fd :: LockOf(s', g) == LockOf(s, g))
            && LockOf(s', p.fd) == if a.SendHeader? && Live(s, p).At? then Held(a.tid, true, p.frame) else Free
  {
    var p, s' := PhaseOf(s, a.tid), Next(v, s, a);
    var p' := if a.SendHeader? then HeaderSent(p.route, p.fd, p.place, p.frame) else Idle;
    assert Moves(s, s', a.tid, p');
    assert p'.Holding() ==> s.mutexes[p.fd := a.tid] == s.mutexes;
    MutexMoves(s, s', a.tid, p.fd, p');
  }

  lemma OrdersKept(s: State, s': State, t: Tid, p: Phase)
    requires OrderOk(s) && Moves(s, s', t, p) && !p.Unlocked() && s'.calls == s.calls
    requires |s'.channels| == |s.channels|
    requires forall c | 0 <= c < |s.channels| :: s'.channels[c].order == s.channels[c].order
    ensures OrderOk(s')
  {
    forall u, c
      ensures InProgramOrder(s', u, c)
    {
      assert InProgramOrder(s, u, c);
    }
    forall u
      ensures CallOk(s', u)
    {
      assert CallOk(s, u);
    }
  }

  /** The connection of the mutex after a send that does not miss. */
  lemma SendChannel(s: State, a: Action)
    requires Inv(s) && Enabled(s, a) && (a.SendHeader? || a.SendPayload?) && Live(s, PhaseOf(s, a.tid)).At?
    ensures var p := PhaseOf(s, a.tid); var ch := s.channels[Live(s, p).conn];
            ChannelOk(Append(ch, if a.SendHeader? then p.frame.header else p.frame.payload),
                      if a.SendHeader? then Held(a.tid, true, p.frame) else Free)
  {
    var p := PhaseOf(s, a.tid);
    LockOfHolder(s, a.tid);
    if a.SendHeader? {
      HeaderKeeps(s.channels[Live(s, p).conn], a.tid, p.frame);
    } else {
      PayloadKeeps(s.channels[Live(s, p).conn], a.tid, p.frame);
    }
  }

  lemma SendWrites(v: Variant, s: State, a: Action)
    requires Enabled(s, a) && (a.SendHeader? || a.SendPayload?) && OnTarget(s, a)
    ensures var p, s' := PhaseOf(s, a.tid), Next(v, s, a); var place := Live(s, p);
            && s'.open == s.open && |s'.channels| == |s.channels|
            && (forall c | 0 <= c < |s.channels| && place != At(c) :: s'.channels[c] == s.channels[c])
            && (place.At? ==> s'.channels[place.conn] == Append(s.channels[place.conn],
                                if a.SendHeader? then p.frame.header else p.frame.payload))
  {
    var p := PhaseOf(s, a.tid);
    WriteOnTarget(s, p, if a.SendHeader? then p.frame.header else p.frame.payload);
  }

  lemma SendChannels(v: Variant, s: State, a: Action)
    requires Inv(s) && Enabled(s, a) && (a.SendHeader? || a.SendPayload?) && OnTarget(s, a)
    ensures ChannelsOk(Next(v, s, a))
  {
    var p := PhaseOf(s, a.tid);
    LocksAfterSend(v, s, a);
    SendWrites(v, s, a);
    if Live(s, p).At? {
      SendChannel(s, a);
    } else {
      LockOfHolder(s, a.tid);
    }
    OneChannel(s, Next(v, s, a), p.fd);
  }

  lemma SendMoves(v: Variant, s: State, a: Action)
    requires Inv(s) && Enabled(s, a) && (a.SendHeader? || a.SendPayload?)
    ensures var s' := Next(v, s, a); PhasesOk(s') && OrderOk(s') && OpenOk(s')
  {
    var p, s' := PhaseOf(s, a.tid), Next(v, s, a);
    var p' := PhaseOf(s', a.tid);
    assert PhaseOk(s, p);
    assert Moves(s, s', a.tid, p');
    PhasesKept(s, s', a.tid, p');
    OrdersKept(s, s', a.tid, p');
  }

  /** A send that does not miss keeps the invariant: the header, and the payload with the mutex given back. */
  lemma SendKeeps(v: Variant, s: State, a: Action)
    requires Inv(s) && Enabled(s, a) && (a.SendHeader? || a.SendPayload?) && OnTarget(s, a)
    ensures Inv(Next(v, s, a))
  {
    SendMoves(v, s, a);
    LocksAfterSend(v, s, a);
    SendChannels(v, s, a);
  }

  // ---- Reads

  lemma ReadAddsUp(ch: Channel, r: Recv)
    requires AddsUp(ch) && CanRead(ch, r)
    ensures AddsUp(ReadFrom(Intended, ch, r))
  {
    var lock :| ChannelOk(ch, lock);
    ReadKeeps(ch, lock, r);
  }

  /** Any read keeps the account of any connection, open or not, whatever the state of its mutex. */
  lemma ReadChannels(s: State, s': State, c: Cid, r: Recv)
    requires OpenOk(s) && ChannelsOk(s) && c < |s.channels| && CanRead(s.channels[c], r)
    requires s' == s.(channels := s.channels[c := ReadFrom(Intended, s.channels[c], r)])
    requires forall fd :: LockOf(s', fd) == LockOf(s, fd)
    ensures ChannelsOk(s')
  {
    ReadAddsUp(s.channels[c], r);
    forall fd | fd in s.open && s.open[fd] == c
      ensures ChannelOk(s'.channels[c], LockOf(s, fd))
    {
      ReadKeeps(s.channels[c], LockOf(s, fd), r);
    }
  }

  lemma ReadStepKeeps(s: State, c: Cid, r: Recv)
    requires Inv(s) && Enabled(s, Read(c, r))
    ensures Inv(Next(Intended, s, Read(c, r)))
  {
    var s' := Next(Intended, s, Read(c, r));
    forall t
      ensures PhaseOk(s', PhaseOf(s', t)) && PhaseOf(s', t) == PhaseOf(s, t)
    {
      assert PhaseOk(s, PhaseOf(s, t));
    }
    LocksStay(s, s');
    assert forall fd :: Where(s', fd) == Where(s, fd);
    ReadChannels(s, s', c, r);
    SameOrders(s, s');
  }

  /** Every step keeps the invariant: with the intended receiver, no message of more than seven digits, and
      no send that misses. */
  lemma StepKeeps(s: State, a: Action)
    requires Inv(s) && Enabled(s, a) && OnTarget(s, a) && Small(a)
    ensures Inv(Next(Intended, s, a))
  {
    match a
    case Enter(t, h, init, payload) => EnterKeeps(Intended, s, t, h, init, payload);
    case Connected(t, fd, size) => ConnectedKeeps(Intended, s, t, fd, size);
    case ConnectFailed(t) => ConnectFailedKeeps(Intended, s, t);
    case Accepted(port, fd, size) => AcceptedKeeps(Intended, s, port, fd, size);
    case Dropped(_) => TableStepKeeps(Intended, s, a);
    case SetSocket(_, _) => TableStepKeeps(Intended, s, a);
    case Closed(fd) => ClosedKeeps(Intended, s, fd);
    case Look(t) => LookKeeps(Intended, s, t);
    case Acquire(t) => AcquireKeeps(Intended, s, t);
    case SendHeader(_) => SendKeeps(Intended, s, a);
    case SendPayload(_) => SendKeeps(Intended, s, a);
    case Read(c, r) => ReadStepKeeps(s, c, r);
  }

  // ---- Sends that miss

  lemma InvWhole(s: State)
    requires Inv(s)
    ensures FramesWhole(s)
  {
    forall fd | fd in s.open
      ensures WholeFrames(s.channels[s.open[fd]], LockOf(s, fd))
    {
      WrittenIsFrames(s.channels[s.open[fd]], LockOf(s, fd));
    }
  }

  /** The connection whose mutex is held then lacks the bytes of its own message ... */
  lemma MissingBytes(ch: Channel, t: Tid, headerOut: bool, f: Frame)
    requires ChannelOk(ch, Held(t, headerOut, f)) && (headerOut ==> f.payload != [])
    ensures !WholeFrames(ch, if headerOut then Free else Held(t, true, f))
  {
    var lock := Held(t, headerOut, f);
    WrittenIsFrames(ch, lock);
    LastFrame(ch, lock);
    assert Frames(ch.order)[|ch.order| - 1] == f;
    if headerOut {
      assert |Flatten(Frames(ch.order))| != |ch.written|;
    } else {
      assert Whole(ch, Held(t, true, f)) == Whole(ch, lock);
      assert |Flatten(Whole(ch, lock)) + f.header| != |ch.written|;
    }
  }

  /** ... and the one written to has bytes that belong to none of its messages. */
  lemma StrayBytes(ch: Channel, lock: Lock, bytes: seq<byte>)
    requires ChannelOk(ch, lock) && bytes != []
    ensures !WholeFrames(Append(ch, bytes), lock)
  {
    WrittenIsFrames(ch, lock);
    assert Whole(Append(ch, bytes), lock) == Whole(ch, lock);
    assert |Append(ch, bytes).written| > |ch.written|;
  }

  lemma MissesOwn(s: State, a: Action)
    requires Inv(s) && Enabled(s, a) && !OnTarget(s, a) && Live(s, PhaseOf(s, a.tid)).At?
    ensures !FramesWhole(Next(Intended, s, a))
  {
    var p, s' := PhaseOf(s, a.tid), Next(Intended, s, a);
    LocksAfterSend(Intended, s, a);
    LockOfHolder(s, a.tid);
    var c := s.open[p.fd];
    assert s'.channels[c] == s.channels[c];
    MissingBytes(s.channels[c], a.tid, a.SendPayload?, p.frame);
    assert !WholeFrames(s'.channels[s'.open[p.fd]], LockOf(s', p.fd));
  }

  lemma HitsOther(s: State, a: Action)
    requires Inv(s) && Enabled(s, a) && !OnTarget(s, a) && Live(s, PhaseOf(s, a.tid)).Nowhere?
    ensures !FramesWhole(Next(Intended, s, a))
  {
    var p, s' := PhaseOf(s, a.tid), Next(Intended, s, a);
    var fd, bytes := Found(s, p.route), if a.SendHeader? then p.frame.header else p.frame.payload;
    LocksAfterSend(Intended, s, a);
    LockOfHolder(s, a.tid);
    assert PhaseOk(s, p);
    StrayBytes(s.channels[s.open[fd]], LockOf(s, fd), bytes);
    assert !WholeFrames(s'.channels[s'.open[fd]], LockOf(s', fd));
  }

  /** Exactly: a step from a state with the invariant leaves whole frames on every connection if and only if
      it is no send that misses, and then the invariant holds again. */
  lemma WholeExactlyOnTarget(s: State, a: Action)
    requires Inv(s) && Enabled(s, a) && Small(a)
    ensures FramesWhole(Next(Intended, s, a)) <==> OnTarget(s, a)
    ensures Inv(Next(Intended, s, a)) <==> OnTarget(s, a)
  {
    if OnTarget(s, a) {
      StepKeeps(s, a);
      InvWhole(Next(Intended, s, a));
    } else {
      if Live(s, PhaseOf(s, a.tid)).At? {
        MissesOwn(s, a);
      } else {
        HitsOther(s, a);
      }
      if Inv(Next(Intended, s, a)) {
        InvWhole(Next(Intended, s, a));
      }
    }
  }

  // ---- Runs

  lemma {:induction false} RunKeeps(s: State, run: seq<Action>)
    requires Inv(s) && Legal(Intended, s, run)
    ensures Possible(Intended, s, run) && Inv(Exec(Intended, s, run))
    decreases |run|
  {
    LegalIsPossible(Intended, s, run);
    if run != [] {
      StepKeeps(s, run[0]);
      RunKeeps(Next(Intended, s, run[0]), run[1..]);
    }
  }

  /** Whole frames on every connection in every state of the run. */
  ghost predicate AlwaysWhole(s: State, run: seq<Action>)
    requires Possible(Intended, s, run)
    decreases |run|
  {
    FramesWhole(s) && (run == [] || AlwaysWhole(Next(Intended, s, run[0]), run[1..]))
  }

  lemma AlwaysWholeParts(s: State, run: seq<Action>)
    requires Possible(Intended, s, run) && run != []
    ensures var s' := Next(Intended, s, run[0]);
            && (AlwaysWhole(s, run) <==> FramesWhole(s) && AlwaysWhole(s', run[1..]))
            && (AlwaysWhole(s', run[1..]) ==> FramesWhole(s'))
            && (Legal(Intended, s, run) <==> OnTarget(s, run[0]) && Small(run[0]) && Legal(Intended, s', run[1..]))
  {
  }

  /** Over whole runs of small messages: frames stay whole throughout exactly when no send of the run
      misses the connection for which its thread holds the mutex. */
  lemma {:induction false} AlwaysWholeExactly(s: State, run: seq<Action>)
    requires Inv(s) && Possible(Intended, s, run) && forall i | 0 <= i < |run| :: Small(run[i])
    ensures AlwaysWhole(s, run) <==> Legal(Intended, s, run)
    decreases |run|
  {
    InvWhole(s);
    if run != [] {
      AlwaysWholeParts(s, run);
      WholeExactlyOnTarget(s, run[0]);
      if OnTarget(s, run[0]) {
        AlwaysWholeExactly(Next(Intended, s, run[0]), run[1..]);
      }
    }
  }
}
