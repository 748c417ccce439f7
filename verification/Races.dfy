/** Three runs in which a send misses its connection: another call takes over the table entry, another call on
    the same handle replaces its socket, and the descriptor is closed and used again. */
module Races {
  import opened Decimal
  import opened WireHeader
  import opened Framing
  import opened Reassembly
  import opened SendProtocol
  import opened SendInvariant

  const INIT: seq<byte> := Zeros(HEADER_LEN)
  const SIZE: nat := 64

  /** A message of one byte. */
  function Short(b: byte): Frame {
    Encode(INIT, [b])
  }

  /** The run is possible, of small messages, and leads from `s` to `s'`. */
  ghost predicate Gets(s: State, run: seq<Action>, s': State) {
    && (forall i | 0 <= i < |run| :: Small(run[i]))
    && Possible(Intended, s, run) && s' == Exec(Intended, s, run)
  }

  lemma GetsAppend(s: State, run: seq<Action>, s1: State, more: seq<Action>, s2: State)
    requires Gets(s, run, s1) && Gets(s1, more, s2)
    ensures Gets(s, run + more, s2)
  {
    RunAppend(s, run, more);
  }

  lemma GetsOne(s: State, a: Action)
    requires Enabled(s, a) && Small(a)
    ensures Gets(s, [a], Next(Intended, s, a))
  {
    assert [a] + [] == [a];
    RunCons(s, a, []);
  }

  // ---- Parts of the runs, from any state

  lemma Entering(s: State, t: Tid, h: Handle, b: byte) returns (run: seq<Action>, s': State)
    requires PhaseOf(s, t).Idle?
    ensures Gets(s, run, s') && Moves(s, s', t, Choose(s, h, Short(b)))
    ensures s' == s.(phases := s'.phases, calls := s'.calls)
  {
    var a := Enter(t, h, INIT, [b]);
    run, s' := [a], Next(Intended, s, a);
    GetsOne(s, a);
  }

  lemma Connects(s: State, t: Tid, h: Handle, f: Frame, fd: Fd) returns (run: seq<Action>, s': State)
    requires PhaseOf(s, t) == Connecting(h, f) && fd !in s.open
    ensures Gets(s, run, s') && Moves(s, s', t, Looking(ByConnect(h), f))
    ensures && s'.table == s.table[h.port := fd] && s'.sockets == s.sockets[h := fd]
            && s'.open == s.open[fd := |s.channels|] && s'.channels == s.channels + [NewChannel(SIZE)]
            && s'.mutexes == s.mutexes
  {
    var a := Connected(t, fd, SIZE);
    run, s' := [a], Next(Intended, s, a);
    GetsOne(s, a);
  }

  lemma Looks(s: State, t: Tid, route: Route, f: Frame) returns (run: seq<Action>, s': State)
    requires PhaseOf(s, t) == Looking(route, f) && (route.ByAddress? ==> route.port in s.table)
    ensures Gets(s, run, s') && Moves(s, s', t, Waiting(route, Found(s, route), f))
    ensures s' == s.(phases := s'.phases)
  {
    var a := Look(t);
    run, s' := [a], Next(Intended, s, a);
    GetsOne(s, a);
    assert LookedUp(s, route) == s.table;
  }

  lemma Acquires(s: State, t: Tid, route: Route, fd: Fd, f: Frame) returns (run: seq<Action>, s': State)
    requires PhaseOf(s, t) == Waiting(route, fd, f) && fd !in s.mutexes
    ensures Gets(s, run, s') && Moves(s, s', t, Locked(route, fd, Where(s, fd), f))
    ensures && s'.table == s.table && s'.sockets == s.sockets && s'.open == s.open
            && s'.channels == Ordered(s, Where(s, fd), Sent(t, f)) && s'.mutexes == s.mutexes[fd := t]
  {
    var a := Acquire(t);
    run, s' := [a], Next(Intended, s, a);
    GetsOne(s, a);
  }

  lemma LooksAndLocks(s: State, t: Tid, route: Route, f: Frame) returns (run: seq<Action>, s': State)
    requires PhaseOf(s, t) == Looking(route, f) && (route.ByAddress? ==> route.port in s.table)
    requires Found(s, route) !in s.mutexes
    ensures var fd := Found(s, route);
            && Gets(s, run, s') && Moves(s, s', t, Locked(route, fd, Where(s, fd), f))
            && s'.table == s.table && s'.sockets == s.sockets && s'.open == s.open
            && s'.channels == Ordered(s, Where(s, fd), Sent(t, f)) && s'.mutexes == s.mutexes[fd := t]
  {
    var look, s1 := Looks(s, t, route, f);
    var lock;
    lock, s' := Acquires(s1, t, route, Found(s, route), f);
    run := look + lock;
    GetsAppend(s, look, s1, lock, s');
  }

  lemma FirstMessage(channels: seq<Channel>, t: Tid, f: Frame)
    ensures var more := channels + [NewChannel(SIZE)]; var n := |channels|;
            more[n := more[n].(order := more[n].order + [Sent(t, f)])]
            == channels + [NewChannel(SIZE).(order := [Sent(t, f)])]
  {
    assert NewChannel(SIZE).order + [Sent(t, f)] == [Sent(t, f)];
  }

  /** A thread connects and takes the mutex: the new connection has its message as the first in order. */
  lemma ConnectsAndLocks(s: State, t: Tid, h: Handle, f: Frame, fd: Fd) returns (run: seq<Action>, s': State)
    requires PhaseOf(s, t) == Connecting(h, f) && fd !in s.open && fd !in s.mutexes
    ensures Gets(s, run, s') && Moves(s, s', t, Locked(ByConnect(h), fd, At(|s.channels|), f))
    ensures && s'.table == s.table[h.port := fd] && s'.sockets == s.sockets[h := fd]
            && s'.open == s.open[fd := |s.channels|]
            && s'.channels == s.channels + [NewChannel(SIZE).(order := [Sent(t, f)])]
            && s'.mutexes == s.mutexes[fd := t]
  {
    var connect, s1 := Connects(s, t, h, f, fd);
    var lock;
    lock, s' := LooksAndLocks(s1, t, ByConnect(h), f);
    run := connect + lock;
    GetsAppend(s, connect, s1, lock, s');
    FirstMessage(s.channels, t, f);
  }

  lemma SendsHeader(s: State, t: Tid, route: Route, fd: Fd, place: Place, f: Frame) returns (run: seq<Action>, s': State)
    requires PhaseOf(s, t) == Locked(route, fd, place, f) && (route.ByAddress? ==> route.port in s.table)
    ensures Gets(s, run, s') && Moves(s, s', t, HeaderSent(route, fd, place, f))
    ensures s' == s.(phases := s'.phases, channels := Write(s, Found(s, route), f.header))
  {
    var a := SendHeader(t);
    run, s' := [a], Next(Intended, s, a);
    GetsOne(s, a);
    assert LookedUp(s, route) == s.table;
  }

  lemma SendsPayload(s: State, t: Tid, route: Route, fd: Fd, place: Place, f: Frame) returns (run: seq<Action>, s': State)
    requires PhaseOf(s, t) == HeaderSent(route, fd, place, f) && (route.ByAddress? ==> route.port in s.table)
    ensures Gets(s, run, s') && Moves(s, s', t, Idle)
    ensures s' == s.(phases := s'.phases, mutexes := s.mutexes - {fd}, channels := Write(s, Found(s, route), f.payload))
  {
    var a := SendPayload(t);
    run, s' := [a], Next(Intended, s, a);
    GetsOne(s, a);
    assert LookedUp(s, route) == s.table;
  }

  /** What is on the wire of the connection `c`. */
  function Wire(s: State, c: Cid): seq<byte> {
    if c < |s.channels| then s.channels[c].written else []
  }

  /** Two threads hold two mutexes, and the first one finds the connection of the second one when it looks. */
  ghost predicate Collision(s: State, t: Tid, tp: Phase, u: Tid, up: Phase) {
    && t != u && PhaseOf(s, t) == tp && PhaseOf(s, u) == up && tp.Locked? && up.Locked?
    && (tp.route.ByAddress? ==> tp.route.port in s.table) && (up.route.ByAddress? ==> up.route.port in s.table)
    && Found(s, tp.route) == Found(s, up.route) == up.fd && up.fd != tp.fd
    && Where(s, up.fd) == At(1) && |s.channels| == 2
  }

  lemma HeadersMix(s: State, t: Tid, tp: Phase, u: Tid, up: Phase) returns (run: seq<Action>, s': State)
    requires Collision(s, t, tp, u, up)
    ensures Gets(s, run, s')
    ensures PhaseOf(s', t) == HeaderSent(tp.route, tp.fd, tp.place, tp.frame)
    ensures PhaseOf(s', u) == HeaderSent(up.route, up.fd, up.place, up.frame)
    ensures s' == s.(phases := s'.phases, channels := s'.channels) && |s'.channels| == 2
    ensures s'.channels[0] == s.channels[0] && s'.channels[1].order == s.channels[1].order
    ensures Wire(s', 1) == Wire(s, 1) + up.frame.header + tp.frame.header
  {
    var first, s1 := SendsHeader(s, u, up.route, up.fd, up.place, up.frame);
    var second;
    second, s' := SendsHeader(s1, t, tp.route, tp.fd, tp.place, tp.frame);
    run := first + second;
    GetsAppend(s, first, s1, second, s');
  }

  lemma PayloadsMix(s: State, t: Tid, tp: Phase, u: Tid, up: Phase) returns (run: seq<Action>, s': State)
    requires t != u && tp.Locked? && up.Locked?
    requires PhaseOf(s, t) == HeaderSent(tp.route, tp.fd, tp.place, tp.frame)
    requires PhaseOf(s, u) == HeaderSent(up.route, up.fd, up.place, up.frame)
    requires (tp.route.ByAddress? ==> tp.route.port in s.table) && (up.route.ByAddress? ==> up.route.port in s.table)
    requires Found(s, tp.route) == Found(s, up.route) == up.fd
    requires Where(s, up.fd) == At(1) && |s.channels| == 2
    ensures Gets(s, run, s')
    ensures s'.mutexes == s.mutexes - {up.fd} - {tp.fd} && |s'.channels| == 2
    ensures s'.channels[0] == s.channels[0] && s'.channels[1].order == s.channels[1].order
    ensures Wire(s', 1) == Wire(s, 1) + up.frame.payload + tp.frame.payload
  {
    var first, s1 := SendsPayload(s, u, up.route, up.fd, up.place, up.frame);
    var second;
    second, s' := SendsPayload(s1, t, tp.route, tp.fd, tp.place, tp.frame);
    run := first + second;
    GetsAppend(s, first, s1, second, s');
  }

  /** Then the message of the first thread goes into the middle of that of the second one. */
  lemma Collides(s: State, t: Tid, tp: Phase, u: Tid, up: Phase) returns (run: seq<Action>, s': State)
    requires Collision(s, t, tp, u, up)
    ensures Gets(s, run, s') && s'.mutexes == s.mutexes - {up.fd} - {tp.fd} && |s'.channels| == 2
    ensures s'.channels[0] == s.channels[0] && s'.channels[1].order == s.channels[1].order
    ensures Wire(s', 1)
         == Wire(s, 1) + up.frame.header + tp.frame.header + up.frame.payload + tp.frame.payload
  {
    var headers, s1 := HeadersMix(s, t, tp, u, up);
    var payloads;
    payloads, s' := PayloadsMix(s1, t, tp, u, up);
    run := headers + payloads;
    GetsAppend(s, headers, s1, payloads, s');
  }

  lemma ShortHeader(b: byte)
    ensures Short(b).payload == [b] && Sound(Short(b)) && Short(b).header == [ZERO + 1, NUL] + INIT[2..]
  {
    EncodeSound(INIT, [b]);
    assert Text(1) == [ZERO + 1];
  }

  /** The first message a peer sees in such a stream is none of those sent. */
  lemma Mixed(b: byte, c: byte)
    requires b != ZERO + 1 && c != ZERO + 1
    ensures var f, g := Short(b), Short(c);
            var p := Split(f.header + g.header + f.payload + g.payload, []);
            p.frames != [] && p.frames[0] != f && p.frames[0] != g
  {
    ShortHeader(b);
    ShortHeader(c);
    MixedFrames(Short(b), Short(c));
  }

  lemma MixedFrames(f: Frame, g: Frame)
    requires Sound(f) && |f.payload| == 1 && |g.payload| == 1 && f.header == g.header
    requires f.payload[0] != f.header[0] && g.payload[0] != f.header[0]
    ensures var p := Split(f.header + g.header + f.payload + g.payload, []);
            p.frames != [] && p.frames[0] != f && p.frames[0] != g
  {
    var h, x := Frame(f.header, g.header[..1]), g.header[1..] + f.payload + g.payload;
    assert h.Bytes() + x == f.header + g.header + f.payload + g.payload;
    SoundSplit(h, x, []);
  }

  /** What is wrong at the end of the first two runs: all mutexes are free, the first connection has lost the
      message `f`, and the second one has it in the middle of `g`. */
  ghost predicate MixedUp(s: State, f: Frame, g: Frame) {
    && s.mutexes == map[] && |s.channels| == 2
    && Frames(s.channels[0].order) == [f] && Wire(s, 0) == []
    && Frames(s.channels[1].order) == [g] && Wire(s, 1) == g.header + f.header + g.payload + f.payload
    && var p := Split(Wire(s, 1), []);
       p.frames != [] && p.frames[0] != f && p.frames[0] != g
  }

  /** The two connections just before the collision. */
  function BeforeCollision(t: Tid, f: Frame, u: Tid, g: Frame): seq<Channel> {
    [NewChannel(SIZE).(order := [Sent(t, f)])] + [NewChannel(SIZE).(order := [Sent(u, g)])]
  }

  lemma EndsMixedUp(s: State, t: Tid, tp: Phase, u: Tid, up: Phase, b: byte, c: byte)
    returns (run: seq<Action>, s': State)
    requires Collision(s, t, tp, u, up) && s.mutexes.Keys == {tp.fd, up.fd}
    requires tp.frame == Short(b) && up.frame == Short(c) && b != ZERO + 1 && c != ZERO + 1
    requires s.channels == BeforeCollision(t, tp.frame, u, up.frame)
    ensures Gets(s, run, s') && MixedUp(s', tp.frame, up.frame)
  {
    run, s' := Collides(s, t, tp, u, up);
    Mixed(c, b);
    assert [] + up.frame.header == up.frame.header;
  }

  // ---- The runs

  lemma BothConnecting(h1: Handle, h2: Handle) returns (run: seq<Action>, s: State)
    ensures Gets(START, run, s)
    ensures s == START.(phases := s.phases, calls := s.calls)
    ensures PhaseOf(s, 1) == Connecting(h1, Short(65)) && PhaseOf(s, 2) == Connecting(h2, Short(66))
    ensures PhaseOf(s, 3) == Idle
  {
    var r1, s1 := Entering(START, 1, h1, 65);
    var r2;
    r2, s := Entering(s1, 2, h2, 66);
    run := r1 + r2;
    GetsAppend(START, r1, s1, r2, s);
  }

  /** Two threads send on the same handle, for whose port there is no entry. Both connect, and the second one
      replaces the socket of the handle while the first one holds the mutex of its own connection. */
  lemma SharedHandleBreaksFrames(h: Handle) returns (run: seq<Action>, s: State)
    ensures Gets(START, run, s) && MixedUp(s, Short(65), Short(66))
  {
    var r1, s1 := BothConnecting(h, h);
    var r2, s2 := ConnectsAndLocks(s1, 1, h, Short(65), 5);
    GetsAppend(START, r1, s1, r2, s2);
    var r3, s3 := ConnectsAndLocks(s2, 2, h, Short(66), 6);
    GetsAppend(START, r1 + r2, s2, r3, s3);
    var r4;
    r4, s := EndsMixedUp(s3, 1, PhaseOf(s3, 1), 2, PhaseOf(s3, 2), 65, 66);
    run := r1 + r2 + r3 + r4;
    GetsAppend(START, r1 + r2 + r3, s3, r4, s);
  }

  /** A thread connects, another one finds the connection under its address and takes the mutex. */
  lemma LockedByAddress(s0: State, port: Port) returns (run: seq<Action>, s: State)
    requires PhaseOf(s0, 1) == Connecting(Handle(1, port), Short(65)) && PhaseOf(s0, 3) == Idle
    requires s0.open == map[] && s0.mutexes == map[] && s0.channels == []
    ensures Gets(s0, run, s)
    ensures PhaseOf(s, 3) == Locked(ByAddress(port), 5, At(0), Short(67)) && PhaseOf(s, 2) == PhaseOf(s0, 2)
    ensures s.open == map[5 := 0] && s.mutexes == map[5 := 3]
    ensures s.channels == [NewChannel(SIZE).(order := [Sent(3, Short(67))])]
  {
    var r1, s1 := Connects(s0, 1, Handle(1, port), Short(65), 5);
    var r2, s2 := Entering(s1, 3, Handle(3, port), 67);
    GetsAppend(s0, r1, s1, r2, s2);
    var r3;
    r3, s := LooksAndLocks(s2, 3, ByAddress(port), Short(67));
    run := r1 + r2 + r3;
    GetsAppend(s0, r1 + r2, s2, r3, s);
    FirstMessage([], 3, Short(67));
  }

  /** Two threads with handles of their own both find no entry for the port and both connect; the second
      connection takes over the entry by which a third thread has found the first connection. */
  lemma RebindingBreaksFrames(port: Port) returns (run: seq<Action>, s: State)
    ensures Gets(START, run, s) && MixedUp(s, Short(67), Short(66))
  {
    var r1, s1 := BothConnecting(Handle(1, port), Handle(2, port));
    var r2, s2 := LockedByAddress(s1, port);
    GetsAppend(START, r1, s1, r2, s2);
    var r3, s3 := ConnectsAndLocks(s2, 2, Handle(2, port), Short(66), 6);
    GetsAppend(START, r1 + r2, s2, r3, s3);
    var r4;
    r4, s := EndsMixedUp(s3, 3, PhaseOf(s3, 3), 2, PhaseOf(s3, 2), 67, 66);
    run := r1 + r2 + r3 + r4;
    GetsAppend(START, r1 + r2 + r3, s3, r4, s);
  }

  lemma Reopens(s: State, fd: Fd, port: Port) returns (run: seq<Action>, s': State)
    requires fd in s.open
    ensures Gets(s, run, s')
    ensures s' == s.(table := s.table[port := fd], open := s.open[fd := |s.channels|],
                     channels := s.channels + [NewChannel(SIZE)])
  {
    var s1 := Next(Intended, s, Closed(fd));
    GetsOne(s, Closed(fd));
    var a := Accepted(port, fd, SIZE);
    s' := Next(Intended, s1, a);
    GetsOne(s1, a);
    run := [Closed(fd)] + [a];
    GetsAppend(s, [Closed(fd)], s1, [a], s');
    assert (s.open - {fd})[fd := |s.channels|] == s.open[fd := |s.channels|];
  }

  /** The descriptor of a connection is closed between the two sends of a message, and accept gives its number
      to another connection, whose peer gets the payload without a header. */
  lemma ReusedNumberBreaksFrames(h: Handle, port: Port) returns (run: seq<Action>, s: State)
    ensures Gets(START, run, s) && s.mutexes == map[] && |s.channels| == 2
    ensures Wire(s, 0) == Short(65).header
    ensures s.channels[1].order == [] && Wire(s, 1) == [65]
  {
    var f := Short(65);
    var r1, s1 := Entering(START, 1, h, 65);
    var r2, s2 := ConnectsAndLocks(s1, 1, h, f, 5);
    GetsAppend(START, r1, s1, r2, s2);
    var r3, s3 := SendsHeader(s2, 1, ByConnect(h), 5, At(0), f);
    GetsAppend(START, r1 + r2, s2, r3, s3);
    var r4, s4 := Reopens(s3, 5, port);
    GetsAppend(START, r1 + r2 + r3, s3, r4, s4);
    var r5;
    r5, s := SendsPayload(s4, 1, ByConnect(h), 5, At(0), f);
    GetsAppend(START, r1 + r2 + r3 + r4, s4, r5, s);
    run := r1 + r2 + r3 + r4 + r5;
    assert [] + f.header == f.header && [] + f.payload == [65];
  }
}
