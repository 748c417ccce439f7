/** What each step of the protocol does, seen through what threads, peers and users can observe, and what it
    leaves alone. */
module StepEffects {
  import opened Decimal
  import opened WireHeader
  import opened Framing
  import opened Reassembly
  import opened SendProtocol

  // ---- What a step leaves alone

  ghost predicate SameThreads(s: State, s': State, but: set<Tid>) {
    forall t | t !in but :: PhaseOf(s', t) == PhaseOf(s, t) && CallsOf(s', t) == CallsOf(s, t)
  }

  ghost predicate SameEntries(s: State, s': State, but: set<Port>) {
    forall q | q !in but :: (q in s'.table <==> q in s.table) && EntryOf(s', q) == EntryOf(s, q)
  }

  ghost predicate SameSockets(s: State, s': State, but: set<Handle>) {
    forall h | h !in but :: SocketOf(s', h) == SocketOf(s, h)
  }

  ghost predicate SameMutexes(s: State, s': State, but: set<Fd>) {
    forall fd | fd !in but :: (fd in s'.mutexes <==> fd in s.mutexes)
                              && (fd in s.mutexes ==> s'.mutexes[fd] == s.mutexes[fd])
  }

  ghost predicate SameDescriptors(s: State, s': State, but: set<Fd>) {
    forall fd | fd !in but :: (fd in s'.open <==> fd in s.open) && (fd in s.open ==> s'.open[fd] == s.open[fd])
  }

  /** The connections there were are untouched, but for those listed. */
  ghost predicate SameConnections(s: State, s': State, but: set<Cid>) {
    |s.channels| <= |s'.channels| && forall c | 0 <= c < |s.channels| && c !in but :: s'.channels[c] == s.channels[c]
  }

  // ---- Calls

  /** send_data is entered: the thread has one more call, whose message is the user's bytes behind a header of
      their number; an entry for the handle's port sends it by address, else an entry that names the handle's
      socket by that, else it connects. */
  lemma EnterEffect(v: Variant, s: State, t: Tid, h: Handle, init: seq<byte>, payload: seq<byte>)
    requires Enabled(s, Enter(t, h, init, payload))
    ensures var s' := Next(v, s, Enter(t, h, init, payload)); var p, calls := PhaseOf(s', t), CallsOf(s', t);
            && p.Unlocked() && !p.Waiting? && p.frame.Bytes() == Header(init, |payload|) + payload
            && p.frame.payload == payload
            && |calls| == |CallsOf(s, t)| + 1 && calls[..|CallsOf(s, t)|] == CallsOf(s, t)
            && calls[|CallsOf(s, t)|] == Call(Nowhere, p.frame)
            && (h.port in s.table ==> p.Looking? && p.route == ByAddress(h.port))
            && (h.port !in s.table && (exists q :: q in s.table && s.table[q] == SocketOf(s, h)) ==>
                  p.Looking? && p.route == BySocket(h))
            && (h.port !in s.table && (forall q | q in s.table :: s.table[q] != SocketOf(s, h)) ==>
                  p.Connecting? && p.handle == h)
            && SameThreads(s, s', {t}) && SameEntries(s, s', {}) && SameSockets(s, s', {})
            && SameMutexes(s, s', {}) && SameDescriptors(s, s', {}) && s'.channels == s.channels
  {
  }

  /** connect fails: the call is over, and nothing else has happened. */
  lemma ConnectFailedEffect(v: Variant, s: State, t: Tid)
    requires Enabled(s, ConnectFailed(t))
    ensures var s' := Next(v, s, ConnectFailed(t));
            && PhaseOf(s', t).Idle? && CallsOf(s', t) == CallsOf(s, t)
            && SameThreads(s, s', {t}) && SameEntries(s, s', {}) && SameSockets(s, s', {})
            && SameMutexes(s, s', {}) && SameDescriptors(s, s', {}) && s'.channels == s.channels
  {
  }

  /** A connection as accept and connect set it up: nothing written, in flight, pending or delivered, and a
      zeroed buffer of the size it was given. */
  ghost predicate Pristine(ch: Channel, size: nat) {
    && ch.written == [] && ch.inflight == [] && ch.order == [] && ch.delivered == []
    && ch.conn.pos == 0 && |ch.conn.buf| == size && forall i | 0 <= i < size :: ch.conn.buf[i] == NUL
  }

  /** connect succeeds: the descriptor stands for a new connection, which the port's entry and the handle now
      lead to, and the call goes on by the handle. */
  lemma ConnectedEffect(v: Variant, s: State, t: Tid, fd: Fd, size: nat)
    requires Enabled(s, Connected(t, fd, size))
    ensures var p, s' := PhaseOf(s, t), Next(v, s, Connected(t, fd, size));
            && |s'.channels| == |s.channels| + 1 && Pristine(s'.channels[|s.channels|], size)
            && Where(s', fd) == At(|s.channels|) && fd in s'.open
            && p.handle.port in s'.table && EntryOf(s', p.handle.port) == fd && SocketOf(s', p.handle) == fd
            && PhaseOf(s', t) == Looking(ByConnect(p.handle), p.frame) && CallsOf(s', t) == CallsOf(s, t)
            && SameThreads(s, s', {t}) && SameEntries(s, s', {p.handle.port}) && SameSockets(s, s', {p.handle})
            && SameMutexes(s, s', {}) && SameDescriptors(s, s', {fd}) && SameConnections(s, s', {})
  {
  }

  lemma AcceptedEffect(v: Variant, s: State, port: Port, fd: Fd, size: nat)
    requires fd !in s.open
    ensures Enabled(s, Accepted(port, fd, size))
    ensures var s' := Next(v, s, Accepted(port, fd, size));
            && |s'.channels| == |s.channels| + 1 && Pristine(s'.channels[|s.channels|], size)
            && Where(s', fd) == At(|s.channels|) && fd in s'.open
            && port in s'.table && EntryOf(s', port) == fd
            && SameThreads(s, s', {}) && SameEntries(s, s', {port}) && SameSockets(s, s', {})
            && SameMutexes(s, s', {}) && SameDescriptors(s, s', {fd}) && SameConnections(s, s', {})
  {
  }

  lemma DroppedEffect(v: Variant, s: State, port: Port)
    ensures Enabled(s, Dropped(port))
    ensures var s' := Next(v, s, Dropped(port));
            && port !in s'.table && |s'.channels| == |s.channels|
            && SameThreads(s, s', {}) && SameEntries(s, s', {port}) && SameSockets(s, s', {})
            && SameMutexes(s, s', {}) && SameDescriptors(s, s', {}) && SameConnections(s, s', {})
  {
  }

  /** A closed descriptor stands for nothing; its connection stays for the peer to read. */
  lemma ClosedEffect(v: Variant, s: State, fd: Fd)
    ensures Enabled(s, Closed(fd))
    ensures var s' := Next(v, s, Closed(fd));
            && fd !in s'.open && Where(s', fd) == Nowhere && |s'.channels| == |s.channels|
            && SameThreads(s, s', {}) && SameEntries(s, s', {}) && SameSockets(s, s', {})
            && SameMutexes(s, s', {}) && SameDescriptors(s, s', {fd}) && SameConnections(s, s', {})
  {
  }

  /** A handle starts without a socket, and its socket is whatever was written to it last. */
  lemma SetSocketEffect(v: Variant, s: State, h: Handle, fd: Fd)
    ensures SocketOf(START, h) == -1
    ensures Enabled(s, SetSocket(h, fd))
    ensures var s' := Next(v, s, SetSocket(h, fd));
            && SocketOf(s', h) == fd && |s'.channels| == |s.channels|
            && SameThreads(s, s', {}) && SameEntries(s, s', {}) && SameSockets(s, s', {h})
            && SameMutexes(s, s', {}) && SameDescriptors(s, s', {}) && SameConnections(s, s', {})
  {
  }

  // ---- Look-ups and sends

  /** What a look-up finds, and what it does to the table: by address the entry, and an entry 0 where there was
      none; else the socket of the handle. */
  ghost predicate Finding(s: State, s': State, route: Route, fd: Fd) {
    && (route.ByAddress? ==>
          && fd == (if route.port in s.table then s.table[route.port] else 0)
          && route.port in s'.table && s'.table[route.port] == fd && SameEntries(s, s', {route.port}))
    && (!route.ByAddress? ==> fd == SocketOf(s, route.handle) && SameEntries(s, s', {}))
  }

  lemma LookEffect(v: Variant, s: State, t: Tid)
    requires Enabled(s, Look(t))
    ensures var p, s' := PhaseOf(s, t), Next(v, s, Look(t)); var p' := PhaseOf(s', t);
            && p' == Waiting(p.route, Found(s, p.route), p.frame) && Finding(s, s', p.route, p'.fd)
            && CallsOf(s', t) == CallsOf(s, t) && |s'.channels| == |s.channels|
            && SameThreads(s, s', {t}) && SameSockets(s, s', {})
            && SameMutexes(s, s', {}) && SameDescriptors(s, s', {}) && SameConnections(s, s', {})
  {
  }

  /** The mutex is taken, and the message is the next in order on the connection its descriptor stands for. */
  lemma AcquireEffect(v: Variant, s: State, t: Tid)
    requires Enabled(s, Acquire(t))
    ensures var p, s' := PhaseOf(s, t), Next(v, s, Acquire(t)); var place := Where(s, p.fd);
            && p.fd !in s.mutexes && p.fd in s'.mutexes && s'.mutexes[p.fd] == t
            && PhaseOf(s', t) == Locked(p.route, p.fd, place, p.frame)
            && |CallsOf(s', t)| == |CallsOf(s, t)|
            && (CallsOf(s, t) != [] ==>
                  var n := |CallsOf(s, t)| - 1;
                  && CallsOf(s', t)[..n] == CallsOf(s, t)[..n]
                  && CallsOf(s', t)[n] == Call(place, CallsOf(s, t)[n].frame))
            && |s'.channels| == |s.channels|
            && (place.At? ==>
                  var c := place.conn;
                  && s'.channels[c].order == s.channels[c].order + [Sent(t, p.frame)]
                  && s'.channels[c] == s.channels[c].(order := s'.channels[c].order))
            && SameThreads(s, s', {t}) && SameEntries(s, s', {}) && SameSockets(s, s', {})
            && SameMutexes(s, s', {p.fd}) && SameDescriptors(s, s', {})
            && SameConnections(s, s', if place.At? then {place.conn} else {})
  {
  }

  /** Bytes go to the connection the descriptor `fd` stands for: on its wire behind what is there. */
  ghost predicate Written(s: State, s': State, fd: Fd, bytes: seq<byte>) {
    && |s'.channels| == |s.channels|
    && match Where(s, fd)
       case Nowhere => SameConnections(s, s', {})
       case At(c) =>
         && s'.channels[c] == s.channels[c].(written := s.channels[c].written + bytes,
                                             inflight := s.channels[c].inflight + bytes)
         && SameConnections(s, s', {c})
  }

  lemma SendHeaderEffect(v: Variant, s: State, t: Tid)
    requires Enabled(s, SendHeader(t))
    ensures var p, s' := PhaseOf(s, t), Next(v, s, SendHeader(t)); var fd := Found(s, p.route);
            && Finding(s, s', p.route, fd) && Written(s, s', fd, p.frame.header)
            && PhaseOf(s', t) == HeaderSent(p.route, p.fd, p.place, p.frame)
            && CallsOf(s', t) == CallsOf(s, t) && SameThreads(s, s', {t}) && SameSockets(s, s', {})
            && SameMutexes(s, s', {}) && SameDescriptors(s, s', {})
  {
  }

  lemma SendPayloadEffect(v: Variant, s: State, t: Tid)
    requires Enabled(s, SendPayload(t))
    ensures var p, s' := PhaseOf(s, t), Next(v, s, SendPayload(t)); var fd := Found(s, p.route);
            && Finding(s, s', p.route, fd) && Written(s, s', fd, p.frame.payload)
            && PhaseOf(s', t).Idle? && p.fd !in s'.mutexes
            && CallsOf(s', t) == CallsOf(s, t) && SameThreads(s, s', {t}) && SameSockets(s, s', {})
            && SameMutexes(s, s', {p.fd}) && SameDescriptors(s, s', {})
  {
  }

  // ---- Reads

  /** A read takes bytes from the front of the wire and delivers the frames the loop finds in pending and new
      bytes; a failed one takes none. */
  lemma ReadEffect(v: Variant, s: State, c: Cid, r: Recv)
    requires Enabled(s, Read(c, r))
    ensures var s' := Next(v, s, Read(c, r)); var ch, ch' := s.channels[c], s'.channels[c];
            && |s'.channels| == |s.channels|
            && ch'.written == ch.written && ch'.order == ch.order && |ch'.conn.buf| == |ch.conn.buf|
            && (r.Got? ==>
                  && ch.inflight == r.data + ch'.inflight
                  && ch'.delivered
                     == ch.delivered + Split(Pending(ch.conn) + r.data, Stale(ch.conn)[|r.data|..]).frames)
            && (r.Failed? ==> ch'.inflight == ch.inflight)
            && (r.Failed? && v.Intended? ==> ch' == ch)
            && SameThreads(s, s', {}) && SameEntries(s, s', {}) && SameSockets(s, s', {})
            && SameMutexes(s, s', {}) && SameDescriptors(s, s', {}) && SameConnections(s, s', {c})
  {
    if r.Got? {
      DeliveredFrames(v, s.channels[c].conn, r.data);
    }
  }

  /** What a thread or a peer may do when: enter when it is in no call; take a mutex that nobody holds; send when
      it holds one; and read any bytes that are next on the wire and fit the buffer. */
  lemma MayStep(s: State, t: Tid, c: Cid, init: seq<byte>, data: seq<byte>)
    ensures |init| == 8 ==> forall h, payload :: Enabled(s, Enter(t, h, init, payload)) <==> PhaseOf(s, t).Idle?
    ensures forall fd, size :: Enabled(s, Connected(t, fd, size)) <==> PhaseOf(s, t).Connecting? && fd !in s.open
    ensures Enabled(s, ConnectFailed(t)) <==> PhaseOf(s, t).Connecting?
    ensures Enabled(s, Look(t)) <==> PhaseOf(s, t).Looking?
    ensures Enabled(s, Acquire(t)) <==> PhaseOf(s, t).Waiting? && PhaseOf(s, t).fd !in s.mutexes
    ensures Enabled(s, SendHeader(t)) <==> PhaseOf(s, t).Locked?
    ensures Enabled(s, SendPayload(t)) <==> PhaseOf(s, t).HeaderSent?
    ensures c < |s.channels| ==>
              var ch := s.channels[c];
              && (Enabled(s, Read(c, Got(data))) <==> data <= ch.inflight && |data| <= |ch.conn.buf| - ch.conn.pos)
              && Enabled(s, Read(c, Failed))
  {
  }
}
