/** The NetworkPosix class: connection and buffer tables updated in place, and the sends of one thread. */
module NetworkPosix {
  import opened Decimal
  import opened WireHeader
  import opened Framing
  import opened Reassembly
  import opened Registry
  import opened PortMap
  import opened Tables
  import Receiver
  import EventLoop

  /** What socket() and connect() come to in send_connect. */
  datatype ConnectResult = Refused | Up(fd: Fd, willing: bool)

  /** send_data either throws or has written these bytes, in this order. */
  datatype SendResult = Thrown | Wrote(writes: seq<(Fd, seq<byte>)>, socket: Fd)

  class NetworkPosix {
    const buffersize: nat
    const evloop: EventLoop.Eventloop
    var connectionMap: Table
    var bufMap: map<Fd, Receiver.BufStruct>
    var sendMutexMap: set<Fd>

    ghost predicate Valid()
      reads this`bufMap, bufMap.Values
    {
      && (forall fd | fd in bufMap :: bufMap[fd].Valid())
      && (forall fd, g | fd in bufMap && g in bufMap && fd != g ::
            bufMap[fd] != bufMap[g] && bufMap[fd].buf != bufMap[g].buf)
    }

    ghost function Arrays(): set<object>
      reads this`bufMap
    {
      set fd | fd in bufMap :: bufMap[fd].buf
    }

    ghost function Buffers(): map<Fd, Window>
      requires Valid()
      reads this`bufMap, bufMap.Values, Arrays()
    {
      map fd | fd in bufMap :: bufMap[fd].View()
    }

    ghost function View(): Tables
      requires Valid()
      reads this, evloop, bufMap.Values, Arrays()
    {
      Tables(evloop.View().loop, connectionMap, Buffers(), buffersize)
    }

    constructor (size: nat)
      ensures Valid() && fresh(evloop)
      ensures View() == Tables(NO_FDS, [], map[], size)
    {
      buffersize := size;
      evloop := new EventLoop.Eventloop();
      connectionMap, bufMap, sendMutexMap := [], map[], {};
    }

    /** m_buf_map[socket].pos = 0 on an entry that is there; resize to the same length changes nothing. */
    method ResetBuffer(socket: Fd)
      requires Valid() && socket in bufMap
      modifies bufMap[socket]
      ensures Valid()
      ensures View() == old(View()).(bufs := old(Buffers())[socket := old(Buffers())[socket].(pos := 0)])
    {
      bufMap[socket].pos := 0;
      assert forall fd | fd in bufMap && fd != socket :: bufMap[fd].View() == old(bufMap[fd].View());
      assert Buffers() == old(Buffers())[socket := old(Buffers())[socket].(pos := 0)];
    }

    method NewBuffer(socket: Fd)
      requires Valid() && socket !in bufMap
      modifies this`bufMap
      ensures Valid()
      ensures View() == old(View()).(bufs := old(Buffers())[socket := Conn(Zeros(buffersize), 0)])
    {
      var b := new Receiver.BufStruct(buffersize);
      bufMap := bufMap[socket := b];
      assert forall fd | fd in bufMap && fd != socket :: bufMap[fd].View() == old(bufMap[fd].View());
      assert Buffers() == old(Buffers())[socket := b.View()];
    }

    /** The five lines that set up m_buf_map[socket], in accept and in connect. */
    method SetUpBuffer(socket: Fd)
      requires Valid()
      modifies this`bufMap, bufMap.Values
      ensures Valid()
      ensures View() == old(View()).(bufs := old(Buffers())[socket := StartBuffer(old(Buffers()), buffersize, socket)])
    {
      if socket in bufMap {
        ResetBuffer(socket);
      } else {
        NewBuffer(socket);
      }
    }

    /** m_send_mutex_map[socket], which creates the mutex when there is none. */
    method UseMutex(socket: Fd)
      requires Valid()
      modifies this`sendMutexMap
      ensures Valid() && View() == old(View())
      ensures sendMutexMap == old(sendMutexMap) + {socket}
    {
      sendMutexMap := sendMutexMap + {socket};
      assert Buffers() == old(Buffers());
    }

    /** m_connection_map[remote] = socket. */
    method StoreConnection(remote: SocketAddr, socket: Fd)
      requires Valid()
      modifies this`connectionMap
      ensures Valid()
      ensures View() == old(View()).(conns := Put(old(connectionMap), remote, socket))
    {
      connectionMap := Put(connectionMap, remote, socket);
      assert Buffers() == old(Buffers());
    }

    method RegisterSocket(ctx: Context, willing: bool)
      requires Valid()
      modifies evloop
      ensures Valid()
      ensures View() == old(View()).(loop := Register(old(View()).loop, ctx, willing))
    {
      evloop.RegisterFd(ctx, willing);
      assert Buffers() == old(Buffers());
    }

    /** on_connection_request; `accepted` is what accept returns. */
    method OnConnectionRequest(remote: SocketAddr, accepted: ConnectResult)
      requires Valid()
      modifies this, evloop, bufMap.Values
      ensures Valid()
      ensures View() == if accepted.Refused? then old(View())
                        else Accept(old(View()), remote, accepted.fd, accepted.willing)
    {
      match accepted
      case Refused =>
      case Up(socket, willing) =>
        RegisterSocket(Context(socket, false, true), willing);
        SetUpBuffer(socket);
        StoreConnection(remote, socket);
    }

    /** Finding and erasing the entry of a descriptor, in on_connection_closed and close_handle_ev. */
    method EraseConnection(socket: Fd)
      requires Valid()
      modifies this`connectionMap
      ensures Valid()
      ensures View() == old(View()).(conns := EraseFd(old(connectionMap), socket))
    {
      var pos := FindFd(connectionMap, socket);
      if pos < |connectionMap| {
        connectionMap := connectionMap[..pos] + connectionMap[pos + 1..];
      }
      assert Buffers() == old(Buffers());
    }

    /** on_connection_closed, which leaves the descriptor itself to the event loop. */
    method OnConnectionClosed(socket: Fd)
      requires Valid()
      modifies this
      ensures Valid()
      ensures View() == old(View()).(conns := EraseFd(old(connectionMap), socket))
    {
      EraseConnection(socket);
    }

    /** close_handle_ev. */
    method CloseHandleEv(socket: Fd)
      requires Valid()
      modifies this, evloop
      ensures Valid()
      ensures View() == HandleClosed(old(View()), socket)
    {
      evloop.RemoveFd(socket);
      assert Buffers() == old(Buffers());
      EraseConnection(socket);
      bufMap := bufMap - {socket};
      assert Buffers() == old(Buffers()) - {socket};
    }

    /** on_data with its look-up of the buffer. */
    method OnData(v: Variant, socket: Fd, received: Recv) returns (delivered: seq<seq<byte>>)
      requires Valid() && (socket in bufMap ==> FitsWindow(bufMap[socket].View(), received))
      modifies bufMap.Values, Arrays()
      ensures Valid()
      ensures View() == Receive(v, old(View()), socket, received).0
      ensures delivered == Payloads(Receive(v, old(View()), socket, received).1)
    {
      if socket !in bufMap {
        return [];
      }
      ghost var o := Reassembly.OnData(v, bufMap[socket].View(), received);
      delivered := bufMap[socket].OnData(v, received);
      assert forall fd | fd in bufMap && fd != socket :: bufMap[fd].View() == old(bufMap[fd].View());
      assert Buffers() == old(Buffers())[socket := o.conn];
    }

    /** send_connect. */
    method SendConnect(remote: SocketAddr, connected: ConnectResult)
      requires Valid()
      modifies this, evloop, bufMap.Values
      ensures Valid()
      ensures View() == if connected.Refused? then old(View())
                        else Connect(old(View()), remote, connected.fd, connected.willing)
      ensures sendMutexMap == if connected.Refused? then old(sendMutexMap) else old(sendMutexMap) + {connected.fd}
    {
      match connected
      case Refused =>
      case Up(sock, willing) =>
        StoreConnection(remote, sock);
        UseMutex(sock);
        SetUpBuffer(sock);
        RegisterSocket(Context(sock, false, false), willing);
    }

    /** send_data of one thread that is not disturbed: `init` is what its header array holds before snprintf,
        `connected` what a connect would come to. The mutex of the chosen connection exists afterwards. */
    method SendData(init: seq<byte>, data: seq<byte>, remote: SocketAddr, socket: Fd, connected: ConnectResult)
      returns (result: SendResult)
      requires Valid() && |init| == HEADER_LEN
      modifies this, evloop, bufMap.Values
      ensures Valid()
      ensures result.Thrown? <==> !Has(old(connectionMap), remote) && socket !in Fds(old(connectionMap))
                                  && connected.Refused?
      ensures result.Wrote? ==>
                var newFd := if connected.Up? then connected.fd else -1;
                var fd := Chosen(old(connectionMap), remote, socket, newFd);
                && result.writes == [(fd, Encode(init, data).header), (fd, data)]
                && fd in Fds(connectionMap) && fd in sendMutexMap
                && result.socket == if Has(old(connectionMap), remote) then socket else fd
      ensures View() == if Has(old(connectionMap), remote) || socket in Fds(old(connectionMap)) || connected.Refused?
                        then old(View()) else Connect(old(View()), remote, connected.fd, connected.willing)
    {
      var header := Header(init, |data|);
      if Has(connectionMap, remote) {
        UseMutex(At(connectionMap, remote));
        return Wrote([(At(connectionMap, remote), header), (At(connectionMap, remote), data)], socket);
      }
      var pos := FindFd(connectionMap, socket);
      if pos < |connectionMap| {
        UseMutex(socket);
        return Wrote([(socket, header), (socket, data)], socket);
      }
      SendConnect(remote, connected);
      match connected
      case Refused =>
        return Thrown;
      case Up(sock, _) =>
        assert connectionMap[LowerBound(old(connectionMap), remote)].fd == sock;
        return Wrote([(sock, header), (sock, data)], sock);
    }
  }
}
