/** The tables of NetworkPosix as values: what accept, data, close, connect and send do to them. */
module Tables {
  import opened Framing
  import opened Reassembly
  import opened ReadRuns
  import opened Registry
  import opened PortMap
  import SendProtocol

  /** The event loop's records, m_connection_map, m_buf_map and m_buffersize. */
  datatype Tables = Tables(loop: Loop, conns: Table, bufs: map<Fd, Window>, size: nat)

  /** The buffer a connection starts with: an entry left over from an earlier connection with the same
      descriptor is kept, only its `pos` is reset. */
  function StartBuffer(bufs: map<Fd, Window>, size: nat, fd: Fd): Window {
    if fd in bufs then bufs[fd].(pos := 0) else Conn(Zeros(size), 0)
  }

  /** on_connection_request, after accept has returned `fd`. */
  function Accept(t: Tables, remote: SocketAddr, fd: Fd, willing: bool): Tables {
    t.(loop := Register(t.loop, Context(fd, false, true), willing),
       bufs := t.bufs[fd := StartBuffer(t.bufs, t.size, fd)],
       conns := Put(t.conns, remote, fd))
  }

  /** send_connect, after connect has succeeded on `fd`: no closed callback. */
  function Connect(t: Tables, remote: SocketAddr, fd: Fd, willing: bool): Tables {
    t.(loop := Register(t.loop, Context(fd, false, false), willing),
       bufs := t.bufs[fd := StartBuffer(t.bufs, t.size, fd)],
       conns := Put(t.conns, remote, fd))
  }

  /** on_data on the tables. */
  function Receive(v: Variant, t: Tables, fd: Fd, r: Recv): (Tables, seq<Frame>)
    requires fd in t.bufs ==> FitsWindow(t.bufs[fd], r)
  {
    if fd !in t.bufs then (t, [])
    else
      var o := OnData(v, t.bufs[fd], r);
      (t.(bufs := t.bufs[fd := o.conn]), o.delivered)
  }

  /** A hang-up as the event loop handles it: on_connection_closed, if that is the closed callback of the
      context, then remove_fd. */
  function PeerClosed(t: Tables, fd: Fd): Tables {
    t.(conns := if fd in t.loop.polled && t.loop.polled[fd].ctx.onClosed then EraseFd(t.conns, fd) else t.conns,
       loop := Remove(t.loop, fd))
  }

  /** close_handle_ev: the user closes the connection; the buffer goes too. */
  function HandleClosed(t: Tables, fd: Fd): Tables {
    t.(loop := Remove(t.loop, fd), conns := EraseFd(t.conns, fd), bufs := t.bufs - {fd})
  }

  ghost predicate TablesOk(t: Tables) {
    && Consistent(t.loop)
    && Sorted(t.conns) && DistinctFds(t.conns)
    && (forall fd | fd in Fds(t.conns) :: fd in t.loop.open && fd in t.bufs)
    && (forall fd | fd in t.loop.polled && t.loop.polled[fd].ctx.onClosed :: fd in t.bufs)
    && (forall fd | fd in t.bufs :: |t.bufs[fd].buf| == t.size)
  }

  /** Every connection in the map is registered with a closed callback that stays. */
  ghost predicate AllClosable(t: Tables) {
    forall fd | fd in Fds(t.conns) ::
      fd in t.loop.polled && t.loop.polled[fd].ctx.onClosed && !t.loop.polled[fd].ctx.once
  }

  /** A new connection keeps the tables in agreement exactly when the kernel agrees to watch it: otherwise
      the connection map names a descriptor the event loop does not have open. */
  lemma AcceptKeeps(t: Tables, remote: SocketAddr, fd: Fd, willing: bool)
    requires TablesOk(t) && fd !in t.loop.interest
    ensures TablesOk(Accept(t, remote, fd, willing)) <==> willing
    ensures AllClosable(t) && willing ==> AllClosable(Accept(t, remote, fd, willing))
  {
    var t' := Accept(t, remote, fd, willing);
    RegisterKeeps(t.loop, Context(fd, false, true), willing);
    PutSorted(t.conns, remote, fd);
    PutKeepsDistinct(t.conns, remote, fd);
    assert fd in Fds(t'.conns);
    assert fd !in t.loop.interest;
  }

  /** What a new connection changes: its port leads to it, its context has the descriptor, and it has a buffer
      with nothing pending, which is zeroed unless one of the same number was left over. */
  ghost predicate SetUp(t: Tables, t': Tables, remote: SocketAddr, fd: Fd, willing: bool) {
    && Sorted(t.conns) && Sorted(t'.conns) && ByPort(t'.conns) == ByPort(t.conns)[remote.port := fd]
    && fd in t'.loop.polled && t'.loop.polled[fd].ctx.fd == fd && !t'.loop.polled[fd].ctx.once
    && (willing ==> fd in t'.loop.interest && fd in t'.loop.open) && OthersSame(t.loop, t'.loop, fd)
    && fd in t'.bufs && t'.bufs[fd].pos == 0
    && (if fd in t.bufs then t'.bufs[fd].buf == t.bufs[fd].buf
        else |t'.bufs[fd].buf| == t.size && forall i | 0 <= i < t.size :: t'.bufs[fd].buf[i] == 0)
    && t'.bufs.Keys == t.bufs.Keys + {fd} && (forall g | g in t.bufs && g != fd :: t'.bufs[g] == t.bufs[g])
    && t'.size == t.size
  }

  /** An accepted connection has the closed callback ... */
  lemma AcceptEffect(t: Tables, remote: SocketAddr, fd: Fd, willing: bool)
    requires TablesOk(t) && fd !in t.loop.interest
    ensures var t' := Accept(t, remote, fd, willing);
            SetUp(t, t', remote, fd, willing) && t'.loop.polled[fd].ctx.onClosed
  {
    RegisterEffect(t.loop, Context(fd, false, true), willing);
    PutIsByPort(t.conns, remote, fd);
  }

  /** ... and one made by send_connect has not. */
  lemma ConnectEffect(t: Tables, remote: SocketAddr, fd: Fd, willing: bool)
    requires TablesOk(t) && fd !in t.loop.interest
    ensures var t' := Connect(t, remote, fd, willing);
            SetUp(t, t', remote, fd, willing) && !t'.loop.polled[fd].ctx.onClosed
  {
    RegisterEffect(t.loop, Context(fd, false, false), willing);
    PutIsByPort(t.conns, remote, fd);
  }

  /** A read touches only the buffer of its connection. In both variants it delivers the frames the loop finds in
      pending and new bytes; the intended receiver conserves bytes, and the code as written does what it does
      exactly when the call is not faulty, and after a fragment keeps the length of the delivered frames too
      much. */
  lemma ReceiveKeeps(v: Variant, t: Tables, fd: Fd, r: Recv)
    requires TablesOk(t) && (fd in t.bufs ==> FitsWindow(t.bufs[fd], r))
    ensures var (t', d) := Receive(v, t, fd, r);
            && TablesOk(t') && t'.loop == t.loop && t'.conns == t.conns && t'.bufs.Keys == t.bufs.Keys
            && (forall g | g in t.bufs && g != fd :: t'.bufs[g] == t.bufs[g])
            && (fd !in t.bufs ==> d == [])
            && (fd in t.bufs && r.Got? ==>
                  d == Split(Pending(t.bufs[fd]) + r.data, Stale(t.bufs[fd])[|r.data|..]).frames)
            && (v.Intended? && fd in t.bufs ==>
                  Flatten(d) + Pending(t'.bufs[fd]) == Pending(t.bufs[fd]) + DataOf(r))
  {
    if fd in t.bufs {
      IntendedConserves(t.bufs[fd], r);
      if r.Got? {
        DeliveredFrames(v, t.bufs[fd], r.data);
      }
    }
  }

  lemma ReceiveAgrees(t: Tables, fd: Fd, r: Recv)
    requires fd in t.bufs && FitsWindow(t.bufs[fd], r)
    ensures Receive(AsWritten, t, fd, r) == Receive(Intended, t, fd, r) <==> !Faulty(t.bufs[fd], r)
    ensures Faulty(t.bufs[fd], r) && r.Got? ==>
              var ((t1, d1), (t2, d2)) := (Receive(AsWritten, t, fd, r), Receive(Intended, t, fd, r));
              && d1 == d2 && t1.bufs[fd].buf == t2.bufs[fd].buf
              && t1.bufs[fd].pos == t2.bufs[fd].pos + |Flatten(d2)|
  {
    VariantsAgree(t.bufs[fd], r);
    assert Receive(AsWritten, t, fd, r).0.bufs[fd] == OnData(AsWritten, t.bufs[fd], r).conn;
    assert Receive(Intended, t, fd, r).0.bufs[fd] == OnData(Intended, t.bufs[fd], r).conn;
    if Faulty(t.bufs[fd], r) && r.Got? {
      FragmentFault(t.bufs[fd], r.data);
    }
  }

  /** A hang-up takes the descriptor out of the loop and nothing else from it. It takes the connection out of the
      map, and the tables stay in agreement, exactly if the map does not name it or it has the closed callback. */
  lemma PeerClosedKeeps(t: Tables, fd: Fd)
    requires TablesOk(t)
    ensures var t' := PeerClosed(t, fd); var closable := fd in Fds(t.conns) ==> fd in t.loop.polled && t.loop.polled[fd].ctx.onClosed;
            && (TablesOk(t') <==> closable)
            && Fds(t'.conns) == (if closable then Fds(t.conns) - {fd} else Fds(t.conns))
            && t'.bufs == t.bufs && OthersSame(t.loop, t'.loop, fd)
            && (forall g :: g in t'.loop.open <==> g in t.loop.open && g != fd)
  {
    EraseKeeps(t.conns, fd);
    RemoveKeeps(t.loop, fd);
  }

  /** Closing a handle keeps the agreement, unless it takes the buffer from an accepted connection that the
      kernel refused to watch and remove_fd therefore leaves registered. */
  lemma HandleClosedKeeps(t: Tables, fd: Fd)
    requires TablesOk(t)
    ensures TablesOk(HandleClosed(t, fd)) <==>
            (fd in t.loop.polled && t.loop.polled[fd].ctx.onClosed ==> fd in t.loop.open)
    ensures TablesOk(HandleClosed(t, fd)) ==>
              Fds(HandleClosed(t, fd).conns) == Fds(t.conns) - {fd} && fd !in HandleClosed(t, fd).bufs
    ensures forall g | g in t.bufs && g != fd :: g in HandleClosed(t, fd).bufs && HandleClosed(t, fd).bufs[g] == t.bufs[g]
    ensures HandleClosed(t, fd).bufs.Keys == t.bufs.Keys - {fd} && OthersSame(t.loop, HandleClosed(t, fd).loop, fd)
  {
    EraseKeeps(t.conns, fd);
    RemoveKeeps(t.loop, fd);
    var t' := HandleClosed(t, fd);
    assert forall g | g in t'.loop.polled :: t'.loop.polled[g] == t.loop.polled[g];
    if fd in t.loop.open {
      assert fd !in t'.loop.polled;
    }
  }

  /** A connection made by send_connect has no closed callback: when its peer hangs up, the loop drops the
      descriptor but the connection map keeps naming it. */
  lemma ClientEntryOutlivesItsDescriptor(t: Tables, remote: SocketAddr, fd: Fd)
    requires TablesOk(t) && fd !in t.loop.interest
    ensures var t' := Connect(t, remote, fd, true); var gone := PeerClosed(t', fd);
            TablesOk(t') && fd in Fds(gone.conns) && fd !in gone.loop.open && !TablesOk(gone)
  {
    RegisterKeeps(t.loop, Context(fd, false, false), true);
    PutSorted(t.conns, remote, fd);
    PutKeepsDistinct(t.conns, remote, fd);
    assert fd !in t.loop.interest;
  }

  // ---- Accept-side runs

  datatype Step = Accepting(remote: SocketAddr, fd: Fd) | Receiving(fd: Fd, received: Recv)
                | HangingUp(fd: Fd) | ClosingHandle(fd: Fd)

  predicate CanStep(t: Tables, s: Step) {
    match s
    case Accepting(_, fd) => fd !in t.loop.interest
    case Receiving(fd, r) => fd in t.bufs ==> FitsWindow(t.bufs[fd], r)
    case HangingUp(_) => true
    case ClosingHandle(fd) => fd in t.loop.open
  }

  function Stepped(v: Variant, t: Tables, s: Step): Tables
    requires CanStep(t, s)
  {
    match s
    case Accepting(remote, fd) => Accept(t, remote, fd, true)
    case Receiving(fd, r) => Receive(v, t, fd, r).0
    case HangingUp(fd) => PeerClosed(t, fd)
    case ClosingHandle(fd) => HandleClosed(t, fd)
  }

  predicate CanRun(v: Variant, t: Tables, steps: seq<Step>)
    decreases |steps|
  {
    steps == [] || (CanStep(t, steps[0]) && CanRun(v, Stepped(v, t, steps[0]), steps[1..]))
  }

  function AfterSteps(v: Variant, t: Tables, steps: seq<Step>): Tables
    requires CanRun(v, t, steps)
    decreases |steps|
  {
    if steps == [] then t else AfterSteps(v, Stepped(v, t, steps[0]), steps[1..])
  }

  /** Over every run of accepts, reads, hang-ups and closed handles, with either receiver: the map names distinct open
      connections, and every one of them has a buffer of the configured size and a closed callback. */
  lemma {:induction false} TablesAgree(v: Variant, t: Tables, steps: seq<Step>)
    requires TablesOk(t) && AllClosable(t) && CanRun(v, t, steps)
    ensures var t' := AfterSteps(v, t, steps); TablesOk(t') && AllClosable(t') && t'.size == t.size
    decreases |steps|
  {
    if steps != [] {
      match steps[0] {
        case Accepting(remote, fd) => AcceptKeeps(t, remote, fd, true);
        case Receiving(fd, r) => ReceiveKeeps(v, t, fd, r);
        case HangingUp(fd) => PeerClosedKeeps(t, fd);
        case ClosingHandle(fd) => HandleClosedKeeps(t, fd);
      }
      TablesAgree(v, Stepped(v, t, steps[0]), steps[1..]);
    }
  }

  /** A connection is accepted, gets bytes, is hung up, and its number accepted again for another host: nothing
      stands in the way, and then the map leads from the second port to it, from the first one nowhere, and
      nothing is pending. */
  lemma NumberComesBack(v: Variant, t: Tables, a: SocketAddr, b: SocketAddr, fd: Fd, r: Recv)
    requires TablesOk(t) && AllClosable(t) && fd !in t.loop.interest && a.port != b.port
    requires r.Failed? || (r.Got? && |r.data| <= t.size)
    ensures var steps := [Accepting(a, fd)] + ([Receiving(fd, r)] + ([HangingUp(fd)] + ([Accepting(b, fd)] + [])));
            && CanRun(v, t, steps)
            && var t' := AfterSteps(v, t, steps);
               Sorted(t'.conns) && b.port in ByPort(t'.conns) && ByPort(t'.conns)[b.port] == fd
               && a.port !in ByPort(t'.conns) && fd in t'.bufs && t'.bufs[fd].pos == 0
  {
    var t1 := Accept(t, a, fd, true);
    AcceptEffect(t, a, fd, true);
    AcceptKeeps(t, a, fd, true);
    var t2 := Receive(v, t1, fd, r).0;
    ReceiveKeeps(v, t1, fd, r);
    var t3 := PeerClosed(t2, fd);
    PeerClosedKeeps(t2, fd);
    var t4 := Accept(t3, b, fd, true);
    AcceptEffect(t3, b, fd, true);
    ErasedPort(t2.conns, a.port, fd);
    StepsCons(v, t3, Accepting(b, fd), []);
    StepsCons(v, t2, HangingUp(fd), [Accepting(b, fd)] + []);
    StepsCons(v, t1, Receiving(fd, r), [HangingUp(fd)] + ([Accepting(b, fd)] + []));
    StepsCons(v, t, Accepting(a, fd), [Receiving(fd, r)] + ([HangingUp(fd)] + ([Accepting(b, fd)] + [])));
  }

  lemma StepsCons(v: Variant, t: Tables, s: Step, steps: seq<Step>)
    requires CanStep(t, s) && CanRun(v, Stepped(v, t, s), steps)
    ensures CanRun(v, t, [s] + steps) && AfterSteps(v, t, [s] + steps) == AfterSteps(v, Stepped(v, t, s), steps)
  {
    assert ([s] + steps)[1..] == steps;
  }

  lemma ErasedPort(m: Table, port: nat, fd: Fd)
    requires Sorted(m) && DistinctFds(m) && port in ByPort(m) && ByPort(m)[port] == fd
    ensures Sorted(EraseFd(m, fd)) && port !in ByPort(EraseFd(m, fd))
  {
    EraseKeeps(m, fd);
    ByPortFds(EraseFd(m, fd));
    var p := EraseTakesFirst(m, fd);
  }

  /** A descriptor number that is used again: whatever an earlier connection left in its buffer, the new one
      starts with nothing pending, and delivers exactly what its own bytes say. */
  lemma ReusedDescriptor(t: Tables, remote: SocketAddr, fd: Fd, willing: bool, rs: seq<Recv>)
    requires var c := Accept(t, remote, fd, willing).bufs[fd];
             Feasible(Intended, c, rs) && HeadersTerminate(Received(rs))
    ensures var c := Accept(t, remote, fd, willing).bufs[fd];
            Pending(c) == [] && Run(Intended, c, rs).delivered == Split(Received(rs), []).frames
  {
    var c := Accept(t, remote, fd, willing).bufs[fd];
    assert Pending(c) == [];
    assert Pending(c) + Received(rs) == Received(rs);
    RunIsSplit(c, rs);
  }

  // ---- The branch of send_data

  /** The connection send_data uses: by address, else the given socket if some entry has it, else a new one. */
  function Chosen(m: Table, remote: SocketAddr, socket: Fd, newFd: Fd): Fd {
    if Has(m, remote) then At(m, remote) else if socket in Fds(m) then socket else newFd
  }

  /** The choice is the one of the sending threads in SendProtocol, on the map by port. */
  lemma ChoiceIsByPort(m: Table, remote: SocketAddr, h: SendProtocol.Handle, newFd: Fd, s: SendProtocol.State, f: Frame)
    requires Sorted(m) && s.table == ByPort(m) && h.port == remote.port
    ensures var p := SendProtocol.Choose(s, h, f); var fd := Chosen(m, remote, SendProtocol.SocketOf(s, h), newFd);
            && (p.Looking? ==> SendProtocol.Found(s, p.route) == fd && fd in Fds(m))
            && (p.Connecting? ==> fd == newFd)
  {
    LookupIsByPort(m, remote);
    ByPortFds(m);
  }
}
