/** send_data as the threads of one process run it, step by step, with the wires to the peers and the
    peers' receivers: a transition system over connection table, handles, descriptors, per-descriptor mutexes
    and channels. */
module SendProtocol {
  import opened Decimal
  import opened WireHeader
  import opened Framing
  import opened Reassembly

  type Tid = nat
  type Fd = int
  type Port = nat

  /** Identity of a connection. Its descriptor is a number that may be used again once it is closed. */
  type Cid = nat

  /** What operator[] yields for an address without an entry, and what a new handle holds. */
  const STDIN: Fd := 0
  const NO_SOCKET: Fd := -1

  /** A connection_info of the user. Its address is constant; its socket is not, and is part of the state. */
  datatype Handle = Handle(id: nat, port: Port)

  /** Which of its three branches a send_data call is in. */
  datatype Route = ByAddress(port: Port) | BySocket(handle: Handle) | ByConnect(handle: Handle)

  /** The connection a descriptor number stands for, if any. */
  datatype Place = Nowhere | At(conn: Cid)

  /** Where a thread is. Looking, it is yet to find the descriptor whose mutex it needs; `place` is the
      connection that descriptor stood for when the mutex was taken. */
  datatype Phase =
    | Idle
    | Connecting(handle: Handle, frame: Frame)
    | Looking(route: Route, frame: Frame)
    | Waiting(route: Route, fd: Fd, frame: Frame)
    | Locked(route: Route, fd: Fd, place: Place, frame: Frame)
    | HeaderSent(route: Route, fd: Fd, place: Place, frame: Frame)
  {
    predicate Active() {
      Waiting? || Locked? || HeaderSent?
    }

    predicate Holding() {
      Locked? || HeaderSent?
    }

    predicate Unlocked() {
      Connecting? || Looking? || Waiting?
    }
  }

  datatype Sent = Sent(tid: Tid, frame: Frame)

  /** One connection: every byte ever written to it, those not yet read by the peer, the messages in the
      order in which their senders got the mutex, and the peer's buffer and deliveries. */
  datatype Channel = Channel(written: seq<byte>, inflight: seq<byte>, order: seq<Sent>,
                             conn: Window, delivered: seq<Frame>)

  /** A send_data call: its message, and the connection for which it has got the mutex, if any yet. */
  datatype Call = Call(place: Place, frame: Frame)

  /** `table` is m_connection_map by port, `sockets` the socket of each handle, `open` what each open
      descriptor stands for, `mutexes` tells who holds m_send_mutex_map[fd], and `calls` is the history of
      send_data calls of each thread in its own program order. */
  datatype State = State(table: map<Port, Fd>, sockets: map<Handle, Fd>, open: map<Fd, Cid>, channels: seq<Channel>,
                         mutexes: map<Fd, Tid>, phases: map<Tid, Phase>, calls: map<Tid, seq<Call>>)

  /** Connected, Accepted and Closed are the life of a descriptor, Dropped erases a table entry, and SetSocket
      is any other write to the socket of a handle, by close_handle or the user. */
  datatype Action =
    | Enter(tid: Tid, handle: Handle, init: seq<byte>, payload: seq<byte>)
    | Connected(tid: Tid, fd: Fd, size: nat)
    | ConnectFailed(tid: Tid)
    | Accepted(port: Port, fd: Fd, size: nat)
    | Dropped(port: Port)
    | Closed(fd: Fd)
    | SetSocket(handle: Handle, fd: Fd)
    | Look(tid: Tid)
    | Acquire(tid: Tid)
    | SendHeader(tid: Tid)
    | SendPayload(tid: Tid)
    | Read(conn: Cid, received: Recv)

  const START: State := State(map[], map[], map[], [], map[], map[], map[])

  function PhaseOf(s: State, t: Tid): Phase {
    if t in s.phases then s.phases[t] else Idle
  }

  function CallsOf(s: State, t: Tid): seq<Call> {
    if t in s.calls then s.calls[t] else []
  }

  function SocketOf(s: State, h: Handle): Fd {
    if h in s.sockets then s.sockets[h] else NO_SOCKET
  }

  function EntryOf(s: State, port: Port): Fd {
    if port in s.table then s.table[port] else STDIN
  }

  function Where(s: State, fd: Fd): (r: Place)
    ensures r.At? ==> r.conn < |s.channels|
  {
    if fd in s.open && s.open[fd] < |s.channels| then At(s.open[fd]) else Nowhere
  }

  function Frames(order: seq<Sent>): (fs: seq<Frame>)
    ensures |fs| == |order| && forall i | 0 <= i < |fs| :: fs[i] == order[i].frame
  {
    seq(|order|, i requires 0 <= i < |order| => order[i].frame)
  }

  function NewChannel(size: nat): Channel {
    Channel([], [], [], Conn(Zeros(size), 0), [])
  }

  function Append(ch: Channel, bytes: seq<byte>): Channel {
    ch.(written := ch.written + bytes, inflight := ch.inflight + bytes)
  }

  predicate CanRead(ch: Channel, r: Recv) {
    FitsWindow(ch.conn, r) && (r.Got? ==> r.data <= ch.inflight)
  }

  function ReadFrom(v: Variant, ch: Channel, r: Recv): Channel
    requires CanRead(ch, r)
  {
    var o := OnData(v, ch.conn, r);
    ch.(inflight := if r.Got? then ch.inflight[|r.data|..] else ch.inflight,
        conn := o.conn, delivered := ch.delivered + o.delivered)
  }

  // ---- The steps

  predicate Enabled(s: State, a: Action) {
    match a
    case Enter(t, _, init, _) => PhaseOf(s, t).Idle? && |init| == HEADER_LEN
    case Connected(t, fd, _) => PhaseOf(s, t).Connecting? && fd !in s.open
    case ConnectFailed(t) => PhaseOf(s, t).Connecting?
    case Accepted(_, fd, _) => fd !in s.open
    case Dropped(_) => true
    case Closed(_) => true
    case SetSocket(_, _) => true
    case Look(t) => PhaseOf(s, t).Looking?
    case Acquire(t) => PhaseOf(s, t).Waiting? && PhaseOf(s, t).fd !in s.mutexes
    case SendHeader(t) => PhaseOf(s, t).Locked?
    case SendPayload(t) => PhaseOf(s, t).HeaderSent?
    case Read(c, r) => c < |s.channels| && CanRead(s.channels[c], r)
  }

  /** The branch send_data takes: by address, else by the handle's socket if some entry names it, else a new
      connection. */
  function Choose(s: State, h: Handle, frame: Frame): Phase {
    if h.port in s.table then Looking(ByAddress(h.port), frame)
    else if SocketOf(s, h) in s.table.Values then Looking(BySocket(h), frame)
    else Connecting(h, frame)
  }

  /** The descriptor a call finds when it looks, which it does for the mutex and again for each send: the entry
      of its address, with operator[], or the socket of its handle. */
  function Found(s: State, route: Route): Fd {
    if route.ByAddress? then EntryOf(s, route.port) else SocketOf(s, route.handle)
  }

  /** operator[] makes an entry when there is none. */
  function LookedUp(s: State, route: Route): map<Port, Fd> {
    if route.ByAddress? then s.table[route.port := EntryOf(s, route.port)] else s.table
  }

  /** send(): on a descriptor that is no connection it has no effect. */
  function Write(s: State, fd: Fd, bytes: seq<byte>): (r: seq<Channel>)
    ensures |r| == |s.channels|
  {
    match Where(s, fd)
    case Nowhere => s.channels
    case At(c) => s.channels[c := Append(s.channels[c], bytes)]
  }

  /** The message gets its place in the order of the connection whose mutex has been taken. */
  function Ordered(s: State, place: Place, x: Sent): (r: seq<Channel>)
    ensures |r| == |s.channels|
  {
    if place.At? && place.conn < |s.channels|
    then s.channels[place.conn := s.channels[place.conn].(order := s.channels[place.conn].order + [x])]
    else s.channels
  }

  /** The latest call of the thread has got the mutex for `place`. */
  function Resolved(calls: seq<Call>, place: Place): (r: seq<Call>)
    ensures |r| == |calls|
  {
    if calls == [] then [] else calls[..|calls| - 1] + [calls[|calls| - 1].(place := place)]
  }

  function Opened(s: State, port: Port, fd: Fd, size: nat): State {
    s.(table := s.table[port := fd], open := s.open[fd := |s.channels|], channels := s.channels + [NewChannel(size)])
  }

  function Next(v: Variant, s: State, a: Action): State
    requires Enabled(s, a)
  {
    match a
    case Enter(t, h, init, payload) =>
      var frame := Encode(init, payload);
      s.(phases := s.phases[t := Choose(s, h, frame)],
         calls := s.calls[t := CallsOf(s, t) + [Call(Nowhere, frame)]])
    case Connected(t, fd, size) =>
      var p := PhaseOf(s, t);
      Opened(s, p.handle.port, fd, size).(
        sockets := s.sockets[p.handle := fd],
        phases := s.phases[t := Looking(ByConnect(p.handle), p.frame)])
    case ConnectFailed(t) => s.(phases := s.phases[t := Idle])
    case Accepted(port, fd, size) => Opened(s, port, fd, size)
    case Dropped(port) => s.(table := s.table - {port})
    case Closed(fd) => s.(open := s.open - {fd})
    case SetSocket(h, fd) => s.(sockets := s.sockets[h := fd])
    case Look(t) =>
      var p := PhaseOf(s, t);
      s.(phases := s.phases[t := Waiting(p.route, Found(s, p.route), p.frame)], table := LookedUp(s, p.route))
    case Acquire(t) =>
      var p := PhaseOf(s, t);
      var place := Where(s, p.fd);
      s.(phases := s.phases[t := Locked(p.route, p.fd, place, p.frame)],
         mutexes := s.mutexes[p.fd := t],
         channels := Ordered(s, place, Sent(t, p.frame)),
         calls := s.calls[t := Resolved(CallsOf(s, t), place)])
    case SendHeader(t) =>
      var p := PhaseOf(s, t);
      s.(phases := s.phases[t := HeaderSent(p.route, p.fd, p.place, p.frame)],
         table := LookedUp(s, p.route),
         channels := Write(s, Found(s, p.route), p.frame.header))
    case SendPayload(t) =>
      var p := PhaseOf(s, t);
      s.(phases := s.phases[t := Idle],
         mutexes := s.mutexes - {p.fd},
         table := LookedUp(s, p.route),
         channels := Write(s, Found(s, p.route), p.frame.payload))
    case Read(c, r) =>
      s.(channels := s.channels[c := ReadFrom(v, s.channels[c], r)])
  }

  // ---- Runs and their conditions

  /** The connection for which a thread holds the mutex, while its descriptor still stands for it. */
  function Live(s: State, p: Phase): Place
    requires p.Holding()
  {
    if Where(s, p.fd) == p.place then p.place else Nowhere
  }

  /** What the thread finds when it looks for a send is the connection for which it holds the mutex, or none
      if that one has been closed. */
  predicate Finds(s: State, p: Phase)
    requires p.Holding()
  {
    Where(s, Found(s, p.route)) == Live(s, p)
  }

  /** No send of at least one byte misses. */
  predicate OnTarget(s: State, a: Action)
    requires Enabled(s, a)
  {
    match a
    case SendHeader(t) => Finds(s, PhaseOf(s, t))
    case SendPayload(t) => PhaseOf(s, t).frame.payload == [] || Finds(s, PhaseOf(s, t))
    case _ => true
  }

  /** Every message has a size of at most seven digits. */
  predicate Small(a: Action) {
    a.Enter? ==> |a.payload| < SIZE_LIMIT
  }

  predicate Possible(v: Variant, s: State, run: seq<Action>)
    decreases |run|
  {
    run == [] || (Enabled(s, run[0]) && Possible(v, Next(v, s, run[0]), run[1..]))
  }

  function Exec(v: Variant, s: State, run: seq<Action>): State
    requires Possible(v, s, run)
    decreases |run|
  {
    if run == [] then s else Exec(v, Next(v, s, run[0]), run[1..])
  }

  /** The runs of small messages in which no send misses. */
  predicate Legal(v: Variant, s: State, run: seq<Action>)
    decreases |run|
  {
    run == [] || (&& Enabled(s, run[0]) && OnTarget(s, run[0]) && Small(run[0])
                  && Legal(v, Next(v, s, run[0]), run[1..]))
  }

  lemma LegalIsPossible(v: Variant, s: State, run: seq<Action>)
    requires Legal(v, s, run)
    ensures Possible(v, s, run)
    decreases |run|
  {
    if run != [] {
      LegalIsPossible(v, Next(v, s, run[0]), run[1..]);
    }
  }

  lemma RunCons(s: State, a: Action, rest: seq<Action>)
    requires Enabled(s, a) && Possible(Intended, Next(Intended, s, a), rest)
    ensures Possible(Intended, s, [a] + rest)
    ensures Exec(Intended, s, [a] + rest) == Exec(Intended, Next(Intended, s, a), rest)
    ensures Legal(Intended, s, [a] + rest) <==>
            OnTarget(s, a) && Small(a) && Legal(Intended, Next(Intended, s, a), rest)
  {
    assert ([a] + rest)[1..] == rest;
  }

  lemma ConsAppend<T>(run: seq<T>, more: seq<T>)
    requires run != []
    ensures (run + more)[0] == run[0] && (run + more)[1..] == run[1..] + more
  {
  }

  lemma {:induction false} RunAppend(s: State, run: seq<Action>, more: seq<Action>)
    requires Possible(Intended, s, run) && Possible(Intended, Exec(Intended, s, run), more)
    ensures Possible(Intended, s, run + more)
    ensures Exec(Intended, s, run + more) == Exec(Intended, Exec(Intended, s, run), more)
    decreases |run|
  {
    if run == [] {
      assert run + more == more;
    } else {
      ConsAppend(run, more);
      RunAppend(Next(Intended, s, run[0]), run[1..], more);
    }
  }

  lemma {:induction false} LegalAppend(s: State, run: seq<Action>, more: seq<Action>)
    requires Legal(Intended, s, run) && Possible(Intended, s, run) && Legal(Intended, Exec(Intended, s, run), more)
    ensures Legal(Intended, s, run + more)
    decreases |run|
  {
    if run == [] {
      assert run + more == more;
    } else {
      ConsAppend(run, more);
      LegalAppend(Next(Intended, s, run[0]), run[1..], more);
    }
  }

  /** No read of the run is one of the two faulty cases of the code as written. */
  predicate ReadsFaultFree(s: State, run: seq<Action>)
    requires Possible(AsWritten, s, run)
    decreases |run|
  {
    run == [] || (&& (run[0].Read? ==> !Faulty(s.channels[run[0].conn].conn, run[0].received))
                  && ReadsFaultFree(Next(AsWritten, s, run[0]), run[1..]))
  }
}
