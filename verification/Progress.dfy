/** Sends can finish and messages can be delivered: what threads and peers can always go on to do. */
module Progress {
  import opened Decimal
  import opened WireHeader
  import opened Framing
  import opened Reassembly
  import opened SendProtocol
  import opened ChannelInvariant
  import opened SendInvariant
  import opened Routes
  import opened EndToEnd
  import opened Histories

  /** The run is possible, of small messages, without a send that misses, and leads from `s` to `s'`. */
  ghost predicate Leads(s: State, run: seq<Action>, s': State) {
    Legal(Intended, s, run) && Possible(Intended, s, run) && s' == Exec(Intended, s, run)
  }

  lemma LeadsCons(s: State, a: Action, rest: seq<Action>, s': State)
    requires Enabled(s, a) && OnTarget(s, a) && Small(a) && Leads(Next(Intended, s, a), rest, s')
    ensures Leads(s, [a] + rest, s')
  {
    RunCons(s, a, rest);
  }

  lemma LeadsOne(s: State, a: Action)
    requires Enabled(s, a) && OnTarget(s, a) && Small(a)
    ensures Leads(s, [a], Next(Intended, s, a))
  {
    LeadsCons(s, a, [], Next(Intended, s, a));
    assert [a] + [] == [a];
  }

  lemma LeadsAppend(s: State, run: seq<Action>, s1: State, more: seq<Action>, s2: State)
    requires Leads(s, run, s1) && Leads(s1, more, s2)
    ensures Leads(s, run + more, s2)
  {
    RunAppend(s, run, more);
    LegalAppend(s, run, more);
  }

  // ---- Undisturbed sends

  /** From `s` to `s'` only the thread `t` has moved, with these channels, mutexes and calls afterwards; in the
      table there may be a new entry 0 for the address it looked up. */
  ghost predicate Moved(s: State, s': State, t: Tid, p': Phase, route: Route,
                        channels': seq<Channel>, mutexes': map<Fd, Tid>, calls': map<Tid, seq<Call>>) {
    && Moves(s, s', t, p')
    && s'.channels == channels' && s'.mutexes == mutexes' && s'.calls == calls'
    && (s'.table == s.table || s'.table == LookedUp(s, route))
    && s'.sockets == s.sockets && s'.open == s.open
  }

  lemma MovedTwice(s: State, s1: State, s2: State, t: Tid, p1: Phase, p2: Phase, route: Route,
                   chs1: seq<Channel>, chs2: seq<Channel>, m1: map<Fd, Tid>, m2: map<Fd, Tid>,
                   calls1: map<Tid, seq<Call>>, calls2: map<Tid, seq<Call>>)
    requires Moved(s, s1, t, p1, route, chs1, m1, calls1) && Moved(s1, s2, t, p2, route, chs2, m2, calls2)
    ensures Moved(s, s2, t, p2, route, chs2, m2, calls2)
  {
  }

  /** The channels with the frame appended where `fd` leads. */
  function WithFrame(s: State, fd: Fd, f: Frame): seq<Channel> {
    match Where(s, fd)
    case Nowhere => s.channels
    case At(c) => s.channels[c := Append(Append(s.channels[c], f.header), f.payload)]
  }

  /** The channel with the whole message, in lock order. */
  function WithMessage(ch: Channel, t: Tid, f: Frame): Channel {
    Append(Append(ch, f.header), f.payload).(order := ch.order + [Sent(t, f)])
  }

  function WithMessageAt(s: State, fd: Fd, t: Tid, f: Frame): seq<Channel> {
    match Where(s, fd)
    case Nowhere => s.channels
    case At(c) => s.channels[c := WithMessage(s.channels[c], t, f)]
  }

  /** From `ch` to `ch'` these bytes have been written, as one more message of `t`, and the peer has not moved. */
  ghost predicate Carries(ch: Channel, ch': Channel, t: Tid, bytes: seq<byte>, payload: seq<byte>) {
    && ch'.written == ch.written + bytes && ch'.inflight == ch.inflight + bytes
    && |ch'.order| == |ch.order| + 1 && ch'.order[..|ch.order|] == ch.order
    && ch'.order[|ch.order|].tid == t && ch'.order[|ch.order|].frame.payload == payload
    && ch'.conn == ch.conn && ch'.delivered == ch.delivered
  }

  lemma MessageCarries(ch: Channel, t: Tid, init: seq<byte>, payload: seq<byte>)
    requires |init| == HEADER_LEN
    ensures Carries(ch, WithMessage(ch, t, Encode(init, payload)), t, Header(init, |payload|) + payload, payload)
  {
    var h := Header(init, |payload|);
    Assoc(ch.written, h, payload);
    Assoc(ch.inflight, h, payload);
  }

  lemma HeldRoute(s: State, p: Phase)
    requires p.Holding() && RouteHolds(s, p)
    ensures Found(s, p.route) == p.fd && Finds(s, p)
  {
  }

  /** Looking something up again, or writing, keeps the route. */
  lemma RouteGoesOn(s: State, s': State, p: Phase, p': Phase)
    requires p.Active() && RouteHolds(s, p) && p'.Active() && p'.route == p.route && p'.fd == p.fd
    requires p'.Holding() ==> p'.place == if p.Holding() then p.place else Where(s, p.fd)
    requires s'.table == s.table || s'.table == LookedUp(s, p.route)
    requires s'.sockets == s.sockets && s'.open == s.open && |s'.channels| == |s.channels|
    ensures RouteHolds(s', p')
  {
  }

  lemma PayloadStep(s: State, t: Tid, p: Phase) returns (s': State)
    requires Inv(s) && p == PhaseOf(s, t) && p.HeaderSent? && RouteHolds(s, p)
    ensures Leads(s, [SendPayload(t)], s')
    ensures Moved(s, s', t, Idle, p.route, Write(s, p.fd, p.frame.payload), s.mutexes - {p.fd}, s.calls)
  {
    HeldRoute(s, p);
    s' := Next(Intended, s, SendPayload(t));
    LeadsOne(s, SendPayload(t));
  }

  lemma HeaderStep(s: State, t: Tid, p: Phase) returns (s': State)
    requires Inv(s) && p == PhaseOf(s, t) && p.Locked? && RouteHolds(s, p)
    ensures Enabled(s, SendHeader(t)) && OnTarget(s, SendHeader(t)) && s' == Next(Intended, s, SendHeader(t))
    ensures var p' := HeaderSent(p.route, p.fd, p.place, p.frame);
            && Inv(s') && RouteHolds(s', p')
            && Moved(s, s', t, p', p.route, Write(s, p.fd, p.frame.header), s.mutexes, s.calls)
  {
    HeldRoute(s, p);
    SendKeeps(Intended, s, SendHeader(t));
    s' := Next(Intended, s, SendHeader(t));
    RouteGoesOn(s, s', p, HeaderSent(p.route, p.fd, p.place, p.frame));
  }

  lemma WriteTwice(s: State, s1: State, fd: Fd, f: Frame)
    requires s1.channels == Write(s, fd, f.header) && s1.open == s.open
    ensures Write(s1, fd, f.payload) == WithFrame(s, fd, f)
  {
  }

  lemma LockedSend(s: State, t: Tid, p: Phase) returns (s': State)
    requires Inv(s) && p == PhaseOf(s, t) && p.Locked? && RouteHolds(s, p)
    ensures Leads(s, [SendHeader(t)] + [SendPayload(t)], s')
    ensures Moved(s, s', t, Idle, p.route, WithFrame(s, p.fd, p.frame), s.mutexes - {p.fd}, s.calls)
  {
    var s1 := HeaderStep(s, t, p);
    var p1 := HeaderSent(p.route, p.fd, p.place, p.frame);
    s' := PayloadStep(s1, t, p1);
    LeadsCons(s, SendHeader(t), [SendPayload(t)], s');
    WriteTwice(s, s1, p.fd, p.frame);
    MovedTwice(s, s1, s', t, p1, Idle, p.route, s1.channels, s'.channels, s1.mutexes, s'.mutexes, s.calls, s.calls);
  }

  lemma AcquireStep(s: State, t: Tid, p: Phase) returns (s': State)
    requires Inv(s) && p == PhaseOf(s, t) && p.Waiting? && RouteHolds(s, p) && p.fd !in s.mutexes
    ensures Enabled(s, Acquire(t)) && s' == Next(Intended, s, Acquire(t))
    ensures var place := Where(s, p.fd); var p' := Locked(p.route, p.fd, place, p.frame);
            && Inv(s') && RouteHolds(s', p')
            && Moved(s, s', t, p', p.route, Ordered(s, place, Sent(t, p.frame)), s.mutexes[p.fd := t],
                     s.calls[t := Resolved(CallsOf(s, t), place)])
  {
    SendInvariant.AcquireKeeps(Intended, s, t);
    s' := Next(Intended, s, Acquire(t));
    RouteGoesOn(s, s', p, Locked(p.route, p.fd, Where(s, p.fd), p.frame));
  }

  function LockAndSend(t: Tid): seq<Action> {
    [Acquire(t)] + ([SendHeader(t)] + [SendPayload(t)])
  }

  lemma OrderedThenSent(s: State, s1: State, fd: Fd, t: Tid, f: Frame)
    requires s1.channels == Ordered(s, Where(s, fd), Sent(t, f)) && s1.open == s.open
    ensures WithFrame(s1, fd, f) == WithMessageAt(s, fd, t, f)
  {
  }

  lemma WaitingSend(s: State, t: Tid, p: Phase) returns (s': State)
    requires Inv(s) && p == PhaseOf(s, t) && p.Waiting? && RouteHolds(s, p) && p.fd !in s.mutexes
    ensures Leads(s, LockAndSend(t), s')
    ensures Moved(s, s', t, Idle, p.route, WithMessageAt(s, p.fd, t, p.frame), s.mutexes,
                  s.calls[t := Resolved(CallsOf(s, t), Where(s, p.fd))])
  {
    var s1 := AcquireStep(s, t, p);
    var p1 := Locked(p.route, p.fd, Where(s, p.fd), p.frame);
    s' := LockedSend(s1, t, p1);
    LeadsCons(s, Acquire(t), [SendHeader(t)] + [SendPayload(t)], s');
    OrderedThenSent(s, s1, p.fd, t, p.frame);
    assert s.mutexes[p.fd := t] - {p.fd} == s.mutexes;
    MovedTwice(s, s1, s', t, p1, Idle, p.route, s1.channels, s'.channels, s1.mutexes, s'.mutexes, s1.calls, s'.calls);
  }

  lemma LookStep(s: State, t: Tid, p: Phase) returns (s': State)
    requires Inv(s) && p == PhaseOf(s, t) && p.Looking?
    ensures Enabled(s, Look(t)) && s' == Next(Intended, s, Look(t))
    ensures var p' := Waiting(p.route, Found(s, p.route), p.frame);
            && Inv(s') && RouteHolds(s', p')
            && Moved(s, s', t, p', p.route, s.channels, s.mutexes, s.calls)
  {
    LookKeeps(Intended, s, t);
    s' := Next(Intended, s, Look(t));
  }

  lemma LookingSend(s: State, t: Tid, p: Phase) returns (s': State)
    requires Inv(s) && p == PhaseOf(s, t) && p.Looking? && Found(s, p.route) !in s.mutexes
    ensures Leads(s, [Look(t)] + LockAndSend(t), s')
    ensures var fd := Found(s, p.route);
            Moved(s, s', t, Idle, p.route, WithMessageAt(s, fd, t, p.frame), s.mutexes,
                  s.calls[t := Resolved(CallsOf(s, t), Where(s, fd))])
  {
    var fd := Found(s, p.route);
    var s1 := LookStep(s, t, p);
    var p1 := Waiting(p.route, fd, p.frame);
    s' := WaitingSend(s1, t, p1);
    LeadsCons(s, Look(t), LockAndSend(t), s');
    MovedTwice(s, s1, s', t, p1, Idle, p.route, s1.channels, s'.channels, s1.mutexes, s'.mutexes, s1.calls, s'.calls);
  }

  /** The call of `t` as it ends up in the history. */
  lemma NewCall(s: State, s1: State, t: Tid, f: Frame, place: Place)
    requires s1.calls == s.calls[t := CallsOf(s, t) + [Call(Nowhere, f)]]
    ensures s1.calls[t := Resolved(CallsOf(s1, t), place)] == s.calls[t := CallsOf(s, t) + [Call(place, f)]]
  {
    assert (CallsOf(s, t) + [Call(Nowhere, f)])[..|CallsOf(s, t)|] == CallsOf(s, t);
  }

  lemma SameWorld(s: State, s1: State, fd: Fd, t: Tid, f: Frame)
    requires s1 == s.(phases := s1.phases, calls := s1.calls)
    ensures Where(s1, fd) == Where(s, fd) && WithMessageAt(s1, fd, t, f) == WithMessageAt(s, fd, t, f)
    ensures forall r :: Found(s1, r) == Found(s, r) && LookedUp(s1, r) == LookedUp(s, r)
  {
  }

  lemma ChosenEntryStays(s: State, h: Handle, f: Frame)
    requires Choose(s, h, f).Looking?
    ensures LookedUp(s, Choose(s, h, f).route) == s.table
  {
  }

  lemma EnterStep(s: State, t: Tid, h: Handle, init: seq<byte>, payload: seq<byte>) returns (s': State)
    requires Inv(s) && PhaseOf(s, t).Idle? && |init| == HEADER_LEN && |payload| < SIZE_LIMIT
    ensures var a := Enter(t, h, init, payload);
            Enabled(s, a) && OnTarget(s, a) && Small(a) && s' == Next(Intended, s, a)
    ensures var f := Encode(init, payload); var p := Choose(s, h, f);
            && Inv(s') && Moves(s, s', t, p) && p.frame == f
            && s' == s.(phases := s'.phases, calls := s'.calls)
            && s'.calls == s.calls[t := CallsOf(s, t) + [Call(Nowhere, f)]]
  {
    EnterKeeps(Intended, s, t, h, init, payload);
    s' := Next(Intended, s, Enter(t, h, init, payload));
  }

  /** A send that no other thread disturbs, in the first two branches: five steps, after which the whole message
      is on the connection its descriptor stands for, the mutex is free again, and no other connection, thread,
      descriptor or table entry has changed. */
  lemma UndisturbedSend(s: State, t: Tid, h: Handle, init: seq<byte>, payload: seq<byte>) returns (s': State)
    requires Inv(s) && PhaseOf(s, t).Idle? && |init| == HEADER_LEN && |payload| < SIZE_LIMIT
    requires var p := Choose(s, h, Encode(init, payload)); p.Looking? && Found(s, p.route) !in s.mutexes
    ensures Leads(s, [Enter(t, h, init, payload)] + ([Look(t)] + LockAndSend(t)), s')
    ensures var f := Encode(init, payload); var fd := Found(s, Choose(s, h, f).route);
            && Moves(s, s', t, Idle) && s'.mutexes == s.mutexes && s'.open == s.open
            && s'.table == s.table && s'.sockets == s.sockets
            && s'.channels == WithMessageAt(s, fd, t, f)
            && (Where(s, fd).At? ==>
                  var c := Where(s, fd).conn;
                  Carries(s.channels[c], s'.channels[c], t, Header(init, |payload|) + payload, payload))
            && s'.calls == s.calls[t := CallsOf(s, t) + [Call(Where(s, fd), f)]]
  {
    var f := Encode(init, payload);
    var p := Choose(s, h, f);
    if Where(s, Found(s, p.route)).At? {
      MessageCarries(s.channels[Where(s, Found(s, p.route)).conn], t, init, payload);
    }
    var s1 := EnterStep(s, t, h, init, payload);
    SameWorld(s, s1, Found(s, p.route), t, f);
    s' := LookingSend(s1, t, p);
    LeadsCons(s, Enter(t, h, init, payload), [Look(t)] + LockAndSend(t), s');
    NewCall(s, s1, t, f, Where(s, Found(s, p.route)));
    ChosenEntryStays(s, h, f);
  }

  /** After a connect the call goes on on the new connection. */
  lemma ConnectStep(s: State, t: Tid, h: Handle, f: Frame, fd: Fd, size: nat) returns (s': State)
    requires Inv(s) && PhaseOf(s, t) == Connecting(h, f) && fd !in s.open
    ensures var a := Connected(t, fd, size);
            Enabled(s, a) && OnTarget(s, a) && Small(a) && s' == Next(Intended, s, a)
    ensures && Inv(s') && Moves(s, s', t, Looking(ByConnect(h), f))
            && Found(s', ByConnect(h)) == fd && Where(s', fd) == At(|s.channels|)
            && s'.mutexes == s.mutexes && s'.calls == s.calls && s'.open == s.open[fd := |s.channels|]
            && s'.table == s.table[h.port := fd] && s'.sockets == s.sockets[h := fd]
            && s'.channels == s.channels + [NewChannel(size)]
  {
    ConnectedKeeps(Intended, s, t, fd, size);
    s' := Next(Intended, s, Connected(t, fd, size));
  }

  lemma NewChannelSent(s: State, s1: State, fd: Fd, size: nat, t: Tid, f: Frame)
    requires s1.channels == s.channels + [NewChannel(size)] && s1.open == s.open[fd := |s.channels|]
    ensures WithMessageAt(s1, fd, t, f) == s.channels + [WithMessage(NewChannel(size), t, f)]
  {
  }

  lemma ConnectingSend(s: State, t: Tid, h: Handle, f: Frame, fd: Fd, size: nat) returns (s': State)
    requires Inv(s) && PhaseOf(s, t) == Connecting(h, f) && fd !in s.open && fd !in s.mutexes
    ensures Leads(s, [Connected(t, fd, size)] + ([Look(t)] + LockAndSend(t)), s')
    ensures && Moves(s, s', t, Idle) && s'.mutexes == s.mutexes && s'.open == s.open[fd := |s.channels|]
            && s'.table == s.table[h.port := fd] && s'.sockets == s.sockets[h := fd]
            && s'.channels == s.channels + [WithMessage(NewChannel(size), t, f)]
            && s'.calls == s.calls[t := Resolved(CallsOf(s, t), At(|s.channels|))]
  {
    var s1 := ConnectStep(s, t, h, f, fd, size);
    s' := LookingSend(s1, t, Looking(ByConnect(h), f));
    LeadsCons(s, Connected(t, fd, size), [Look(t)] + LockAndSend(t), s');
    NewChannelSent(s, s1, fd, size, t, f);
  }

  /** The third branch, undisturbed: six steps, after which table and handle name the new connection and the
      first bytes on it are the message. */
  lemma UndisturbedConnect(s: State, t: Tid, h: Handle, init: seq<byte>, payload: seq<byte>, fd: Fd, size: nat)
    returns (s': State)
    requires Inv(s) && PhaseOf(s, t).Idle? && |init| == HEADER_LEN && |payload| < SIZE_LIMIT
    requires Choose(s, h, Encode(init, payload)).Connecting? && fd !in s.open && fd !in s.mutexes
    ensures Leads(s, [Enter(t, h, init, payload)] + ([Connected(t, fd, size)] + ([Look(t)] + LockAndSend(t))), s')
    ensures var f := Encode(init, payload);
            && Moves(s, s', t, Idle) && s'.mutexes == s.mutexes && s'.open == s.open[fd := |s.channels|]
            && s'.table == s.table[h.port := fd] && s'.sockets == s.sockets[h := fd]
            && s'.channels == s.channels + [WithMessage(NewChannel(size), t, f)]
            && Carries(NewChannel(size), s'.channels[|s.channels|], t, Header(init, |payload|) + payload, payload)
            && s'.calls == s.calls[t := CallsOf(s, t) + [Call(At(|s.channels|), f)]]
  {
    var f := Encode(init, payload);
    MessageCarries(NewChannel(size), t, init, payload);
    var s1 := EnterStep(s, t, h, init, payload);
    s' := ConnectingSend(s1, t, h, f, fd, size);
    LeadsCons(s, Enter(t, h, init, payload), [Connected(t, fd, size)] + ([Look(t)] + LockAndSend(t)), s');
    NewCall(s, s1, t, f, At(|s.channels|));
  }

  // ---- All calls under way

  function Busy(s: State): set<Tid> {
    set t | t in s.phases && !s.phases[t].Idle?
  }

  /** Every thread has made the same calls, wherever they have got to. */
  ghost predicate SameMessages(s: State, s': State) {
    forall t :: |CallsOf(s', t)| == |CallsOf(s, t)|
             && forall i | 0 <= i < |CallsOf(s, t)| :: CallsOf(s', t)[i].frame == CallsOf(s, t)[i].frame
  }

  /** The thread `t` has finished its call, and everybody else is where he was. */
  ghost predicate Finished(s: State, s': State, t: Tid) {
    Inv(s') && Routed(s') && Busy(s') == Busy(s) - {t} && SameMessages(s, s')
  }

  lemma OthersBusy(s: State, s': State, t: Tid)
    requires Moves(s, s', t, Idle)
    ensures Busy(s') == Busy(s) - {t}
  {
    forall u
      ensures u in Busy(s') <==> u in Busy(s) && u != t
    {
      assert u in Busy(s') <==> !PhaseOf(s', u).Idle?;
      assert u in Busy(s) <==> !PhaseOf(s, u).Idle?;
    }
  }

  lemma SendFinishes(s: State, s': State, t: Tid, route: Route, run: seq<Action>)
    requires Inv(s) && Routed(s) && Leads(s, run, s')
    requires Moved(s, s', t, Idle, route, s'.channels, s'.mutexes, s'.calls) && |s'.channels| == |s.channels|
    requires s'.calls == s.calls || exists place :: s'.calls == s.calls[t := Resolved(CallsOf(s, t), place)]
    ensures Finished(s, s', t)
  {
    RunKeeps(s, run);
    assert forall r :: Found(s', r) == Found(s, r);
    assert forall fd :: Where(s', fd) == Where(s, fd);
    RoutesKept(s, s', {t});
    OthersBusy(s, s', t);
  }

  /** Whoever holds a mutex can finish at once; when nobody does, whoever waits can. */
  lemma OneFinishes(s: State, t: Tid) returns (run: seq<Action>, s': State)
    requires Inv(s) && Routed(s) && PhaseOf(s, t).Active()
    requires PhaseOf(s, t).Holding() || PhaseOf(s, t).fd !in s.mutexes
    ensures Leads(s, run, s') && Finished(s, s', t)
  {
    var p := PhaseOf(s, t);
    assert RouteHolds(s, p);
    if p.Locked? {
      run := [SendHeader(t)] + [SendPayload(t)];
      s' := LockedSend(s, t, p);
    } else if p.HeaderSent? {
      run := [SendPayload(t)];
      s' := PayloadStep(s, t, p);
    } else {
      run := LockAndSend(t);
      s' := WaitingSend(s, t, p);
    }
    SendFinishes(s, s', t, p.route, run);
  }

  /** Someone who can finish: the holder of the mutex another thread waits for, or that thread itself. */
  lemma SomeoneCan(s: State, t: Tid) returns (u: Tid)
    requires Inv(s) && PhaseOf(s, t).Active()
    ensures PhaseOf(s, u).Active() && (PhaseOf(s, u).Holding() || PhaseOf(s, u).fd !in s.mutexes)
  {
    var fd := PhaseOf(s, t).fd;
    u := if fd in s.mutexes then s.mutexes[fd] else t;
  }

  ghost predicate NobodyActive(s: State) {
    forall t :: !PhaseOf(s, t).Active()
  }

  lemma NobodyHolds(s: State)
    requires Inv(s) && NobodyActive(s)
    ensures s.mutexes == map[]
  {
    assert forall fd | fd in s.mutexes :: PhaseOf(s, s.mutexes[fd]).Active();
  }

  /** With nobody else in the way, a thread that is yet to look can finish too. */
  lemma LookingFinishes(s: State, t: Tid) returns (run: seq<Action>, s': State)
    requires Inv(s) && NobodyActive(s) && PhaseOf(s, t).Looking?
    ensures Leads(s, run, s') && Finished(s, s', t)
  {
    NobodyHolds(s);
    run := [Look(t)] + LockAndSend(t);
    s' := LookingSend(s, t, PhaseOf(s, t));
    SendFinishes(s, s', t, PhaseOf(s, t).route, run);
  }

  lemma {:induction false} UnusedNumber(fds: set<Fd>) returns (n: Fd)
    ensures forall fd | fd in fds :: fd < n
    decreases |fds|
  {
    if fd :| fd in fds {
      var m := UnusedNumber(fds - {fd});
      n := if m > fd then m else fd + 1;
      assert forall g | g in fds :: g == fd || g in fds - {fd};
    } else {
      n := 0;
    }
  }

  lemma ConnectFinishes(s: State, s': State, t: Tid, run: seq<Action>, place: Place)
    requires Inv(s) && NobodyActive(s) && Leads(s, run, s') && Moves(s, s', t, Idle)
    requires s'.calls == s.calls[t := Resolved(CallsOf(s, t), place)]
    ensures Finished(s, s', t)
  {
    RunKeeps(s, run);
    OthersBusy(s, s', t);
    assert forall u :: !PhaseOf(s', u).Active();
  }

  /** And so can a thread whose connect succeeds. */
  lemma ConnectingFinishes(s: State, t: Tid) returns (run: seq<Action>, s': State)
    requires Inv(s) && NobodyActive(s) && PhaseOf(s, t).Connecting?
    ensures Leads(s, run, s') && Finished(s, s', t)
  {
    var p, size := PhaseOf(s, t), 0;
    NobodyHolds(s);
    var fd := UnusedNumber(s.open.Keys);
    run := [Connected(t, fd, size)] + ([Look(t)] + LockAndSend(t));
    s' := ConnectingSend(s, t, p.handle, p.frame, fd, size);
    ConnectFinishes(s, s', t, run, At(|s.channels|));
  }

  /** Some thread can always finish its call. */
  lemma SomeoneFinishes(s: State) returns (t: Tid, run: seq<Action>, s': State)
    requires Inv(s) && Routed(s) && Busy(s) != {}
    ensures t in Busy(s) && Leads(s, run, s') && Finished(s, s', t)
  {
    if u :| PhaseOf(s, u).Active() {
      t := SomeoneCan(s, u);
      run, s' := OneFinishes(s, t);
    } else {
      t :| t in Busy(s);
      if PhaseOf(s, t).Looking? {
        run, s' := LookingFinishes(s, t);
      } else {
        run, s' := ConnectingFinishes(s, t);
      }
    }
  }

  /** All calls under way can finish, by steps of their own threads and of the kernel completing their connects:
      nobody is ever stuck. */
  lemma {:induction false} AllFinish(s: State) returns (run: seq<Action>, s': State)
    requires Inv(s) && Routed(s)
    ensures Leads(s, run, s') && Inv(s') && (forall t :: PhaseOf(s', t).Idle?)
    ensures s'.mutexes == map[] && SameMessages(s, s')
    decreases |Busy(s)|
  {
    if Busy(s) == {} {
      run, s' := [], s;
      assert forall t | !PhaseOf(s, t).Idle? :: t in Busy(s);
      assert forall t | PhaseOf(s, t).Active() :: t in Busy(s);
      NobodyHolds(s);
    } else {
      var t, first, s1 := SomeoneFinishes(s);
      assert |Busy(s1)| < |Busy(s)|;
      var rest;
      rest, s' := AllFinish(s1);
      run := first + rest;
      LeadsAppend(s, first, s1, rest, s');
    }
  }

  // ---- Deliveries

  /** As long as bytes are on the wire and the messages fit the peer's buffer, the peer can read. */
  lemma CanAlwaysRead(s: State, c: Cid)
    requires Reachable(s) && c < |s.channels|
    requires AllFit(s.channels[c]) && s.channels[c].inflight != []
    ensures s.channels[c].conn.pos < |s.channels[c].conn.buf|
    ensures Enabled(s, Read(c, Got(s.channels[c].inflight[..1])))
  {
    ReachableInv(s);
    WindowOpen(s, c);
  }

  lemma WindowOpen(s: State, c: Cid)
    requires ChannelsOk(s) && c < |s.channels| && AllFit(s.channels[c]) && s.channels[c].inflight != []
    ensures s.channels[c].conn.pos < |s.channels[c].conn.buf|
  {
    assert AddsUp(s.channels[c]);
    var lock :| ChannelOk(s.channels[c], lock);
    WindowStaysOpen(s.channels[c], lock);
  }

  ghost predicate ReadsOnly(run: seq<Action>, cs: set<Cid>) {
    forall i | 0 <= i < |run| :: run[i].Read? && run[i].conn in cs
  }

  /** Nothing but what the receivers of `cs` have read. */
  ghost predicate OnlyRead(s: State, s': State, cs: set<Cid>) {
    && s' == s.(channels := s'.channels)
    && |s'.channels| == |s.channels|
    && forall c | 0 <= c < |s.channels| ::
         && s'.channels[c].order == s.channels[c].order
         && |s'.channels[c].conn.buf| == |s.channels[c].conn.buf|
         && (c !in cs ==> s'.channels[c] == s.channels[c])
  }

  lemma ReadOnlyReads(s: State, c: Cid, data: seq<byte>)
    requires Enabled(s, Read(c, Got(data)))
    ensures var s' := Next(Intended, s, Read(c, Got(data)));
            OnlyRead(s, s', {c}) && s'.channels[c].inflight == s.channels[c].inflight[|data|..]
  {
  }

  lemma OneByte(s: State, c: Cid) returns (s': State)
    requires Inv(s) && c < |s.channels| && AllFit(s.channels[c]) && s.channels[c].inflight != []
    ensures var a := Read(c, Got(s.channels[c].inflight[..1]));
            Enabled(s, a) && s' == Next(Intended, s, a)
    ensures Inv(s') && OnlyRead(s, s', {c})
    ensures s'.channels[c].inflight == s.channels[c].inflight[1..]
  {
    WindowOpen(s, c);
    var data := s.channels[c].inflight[..1];
    ReadStepKeeps(s, c, Got(data));
    s' := Next(Intended, s, Read(c, Got(data)));
    ReadOnlyReads(s, c, data);
  }

  lemma OnlyReadTwice(s: State, s1: State, s2: State, cs: set<Cid>, more: set<Cid>)
    requires OnlyRead(s, s1, cs) && OnlyRead(s1, s2, more)
    ensures OnlyRead(s, s2, cs + more)
  {
  }

  /** Reads alone drain the wire: the peer can get to where nothing is in flight, in at most as many reads as
      there are bytes, and without anybody else moving. */
  lemma {:induction false} Drain(s: State, c: Cid) returns (run: seq<Action>, s': State)
    requires Inv(s) && c < |s.channels| && AllFit(s.channels[c])
    ensures Leads(s, run, s') && ReadsOnly(run, {c}) && |run| == |s.channels[c].inflight|
    ensures Inv(s') && OnlyRead(s, s', {c}) && s'.channels[c].inflight == []
    decreases |s.channels[c].inflight|
  {
    var ch := s.channels[c];
    if ch.inflight == [] {
      run, s' := [], s;
    } else {
      var a := Read(c, Got(ch.inflight[..1]));
      var s1 := OneByte(s, c);
      var rest;
      rest, s' := Drain(s1, c);
      run := [a] + rest;
      LeadsCons(s, a, rest, s');
      OnlyReadTwice(s, s1, s', {c}, {c});
    }
  }

  /** Nothing is in flight for these receivers, but for those with a message that does not fit. */
  ghost predicate Drained(s: State, cs: set<Cid>) {
    forall c | c in cs && c < |s.channels| && AllFit(s.channels[c]) :: s.channels[c].inflight == []
  }

  lemma DrainOne(s: State, c: Cid) returns (run: seq<Action>, s': State)
    requires Inv(s) && c < |s.channels|
    ensures Leads(s, run, s') && ReadsOnly(run, {c})
    ensures Inv(s') && OnlyRead(s, s', {c}) && Drained(s', {c})
  {
    if AllFit(s.channels[c]) {
      run, s' := Drain(s, c);
    } else {
      run, s' := [], s;
    }
  }

  lemma ReadsOnlyBoth(run: seq<Action>, cs: set<Cid>, more: seq<Action>, others: set<Cid>)
    requires ReadsOnly(run, cs) && ReadsOnly(more, others)
    ensures ReadsOnly(run + more, cs + others)
  {
  }

  lemma DrainedBoth(s: State, s': State, cs: set<Cid>, c: Cid)
    requires Drained(s, cs) && OnlyRead(s, s', {c}) && Drained(s', {c})
    ensures Drained(s', cs + {c})
  {
  }

  /** What reading alone comes to. */
  ghost predicate Drains(s: State, run: seq<Action>, s': State, cs: set<Cid>) {
    Leads(s, run, s') && ReadsOnly(run, cs) && Inv(s') && OnlyRead(s, s', cs) && Drained(s', cs)
  }

  lemma DrainsBoth(s: State, run: seq<Action>, s1: State, cs: set<Cid>, more: seq<Action>, s2: State, c: Cid)
    requires Drains(s, run, s1, cs) && Drains(s1, more, s2, {c})
    ensures Drains(s, run + more, s2, cs + {c})
  {
    LeadsAppend(s, run, s1, more, s2);
    ReadsOnlyBoth(run, cs, more, {c});
    OnlyReadTwice(s, s1, s2, cs, {c});
    DrainedBoth(s1, s2, cs, c);
  }

  /** Any receivers, in turn. */
  lemma {:induction false} DrainAll(s: State, cs: set<Cid>) returns (run: seq<Action>, s': State)
    requires Inv(s) && forall c | c in cs :: c < |s.channels|
    ensures Drains(s, run, s', cs)
    decreases |cs|
  {
    if c :| c in cs {
      var rest, s1 := DrainAll(s, cs - {c});
      var more;
      more, s' := DrainOne(s1, c);
      run := rest + more;
      DrainsBoth(s, rest, s1, cs - {c}, more, s', c);
      assert cs - {c} + {c} == cs;
    } else {
      run, s' := [], s;
    }
  }

  /** So every message that has been sent on an open connection can be delivered. */
  lemma EverythingCanBeDelivered(s: State, fd: Fd) returns (run: seq<Action>, s': State)
    requires Reachable(s) && fd in s.open && fd !in s.mutexes
    requires s.open[fd] < |s.channels| && AllFit(s.channels[s.open[fd]])
    ensures var c := s.open[fd];
            && Leads(s, run, s') && ReadsOnly(run, {c})
            && c < |s'.channels| && s'.channels[c].delivered == Frames(s.channels[c].order)
  {
    ReachableInv(s);
    run, s' := Drain(s, s.open[fd]);
    DeliveredIsAll(s'.channels[s.open[fd]]);
  }

  /** The numbers of the first `n` connections. */
  function First(n: nat): (cs: set<Cid>)
    ensures forall c: Cid :: c in cs <==> c < n
  {
    if n == 0 then {} else First(n - 1) + {n - 1}
  }

  lemma DrainedIsDelivered(s: State, fd: Fd)
    requires Inv(s) && s.mutexes == map[] && Drained(s, First(|s.channels|)) && fd in s.open
    ensures var ch := s.channels[s.open[fd]]; AllFit(ch) ==> ch.delivered == Frames(ch.order)
  {
    if AllFit(s.channels[s.open[fd]]) {
      DeliveredIsAll(s.channels[s.open[fd]]);
    }
  }

  lemma StillDone(s: State, s1: State, s2: State, cs: set<Cid>)
    requires (forall t :: PhaseOf(s1, t).Idle?) && s1.mutexes == map[] && SameMessages(s, s1) && OnlyRead(s1, s2, cs)
    ensures (forall t :: PhaseOf(s2, t).Idle?) && s2.mutexes == map[] && SameMessages(s, s2)
    ensures |s2.channels| == |s1.channels|
  {
    assert forall t :: PhaseOf(s2, t) == PhaseOf(s1, t) && CallsOf(s2, t) == CallsOf(s1, t);
  }

  /** All calls finish, and then everything is read. */
  lemma FinishAndDrain(s: State) returns (run: seq<Action>, s': State)
    requires Inv(s) && Routed(s)
    ensures Leads(s, run, s') && Inv(s') && Drained(s', First(|s'.channels|))
    ensures (forall t :: PhaseOf(s', t).Idle?) && s'.mutexes == map[] && SameMessages(s, s')
  {
    var sends, s1 := AllFinish(s);
    var cs := First(|s1.channels|);
    var receipts;
    receipts, s' := DrainAll(s1, cs);
    run := sends + receipts;
    LeadsAppend(s, sends, s1, receipts, s');
    StillDone(s, s1, s', cs);
  }

  /** From every reachable state in which calls under way still find their connections, all calls can finish and
      everything can be delivered: afterwards every message any thread has sent on an open connection whose
      messages fit the buffer is with the receiver, in the order of that thread's calls. */
  lemma EverySendCompletes(s: State) returns (run: seq<Action>, s': State)
    requires Reachable(s) && Routed(s)
    ensures Leads(s, run, s')
    ensures (forall t :: PhaseOf(s', t).Idle?) && s'.mutexes == map[] && SameMessages(s, s')
    ensures forall fd | fd in s'.open :: s'.open[fd] < |s'.channels|
    ensures forall fd | fd in s'.open && AllFit(s'.channels[s'.open[fd]]) ::
              var ch := s'.channels[s'.open[fd]]; ch.delivered == Frames(ch.order)
    ensures forall c, t | 0 <= c < |s'.channels| ::
              FramesOf(s'.channels[c].order, t) == CallsTo(CallsOf(s', t), c)
  {
    ReachableInv(s);
    run, s' := FinishAndDrain(s);
    forall fd | fd in s'.open && AllFit(s'.channels[s'.open[fd]])
      ensures var ch := s'.channels[s'.open[fd]]; ch.delivered == Frames(ch.order)
    {
      DrainedIsDelivered(s', fd);
    }
    forall c, t | 0 <= c < |s'.channels|
      ensures FramesOf(s'.channels[c].order, t) == CallsTo(CallsOf(s', t), c)
    {
      assert InProgramOrder(s', t, c);
    }
  }

  lemma SameMessagesSame(s: State, s': State, t: Tid)
    requires SameMessages(s, s')
    ensures PayloadsOf(CallsOf(s', t)) == PayloadsOf(CallsOf(s, t))
  {
  }

  /** The same for a whole run from the start, by what its users know: the messages they sent and the buffer
      sizes of their peers. */
  lemma EveryMessageArrives(run: seq<Action>) returns (more: seq<Action>, s': State)
    requires Legal(Intended, START, run) && Possible(Intended, START, run) && Routed(Exec(Intended, START, run))
    ensures Leads(START, run + more, s') && forall t :: PhaseOf(s', t).Idle?
    ensures forall t :: PayloadsOf(CallsOf(s', t)) == MessagesOf(run, t)
    ensures |SizesOf(run + more)| == |s'.channels|
    ensures forall fd | fd in s'.open ::
              && s'.open[fd] < |s'.channels|
              && var ch, size := s'.channels[s'.open[fd]], SizesOf(run + more)[s'.open[fd]];
                 (forall i | 0 <= i < |ch.order| :: |ch.order[i].frame.payload| + 8 <= size)
                 ==> Payloads(ch.delivered) == Payloads(Frames(ch.order))
  {
    var s := Exec(Intended, START, run);
    assert ReachedBy(s, run);
    more, s' := EverySendCompletes(s);
    LeadsAppend(START, run, s, more, s');
    RunKeepsFromStart(run + more);
    BuffersKeepTheirSizes(Intended, START, run + more);
    assert BufferSizes(START) + SizesOf(run + more) == SizesOf(run + more);
    forall t
      ensures PayloadsOf(CallsOf(s', t)) == MessagesOf(run, t)
    {
      CallsAreMessages(Intended, START, run, t);
      assert PayloadsOf(CallsOf(START, t)) + MessagesOf(run, t) == MessagesOf(run, t);
      SameMessagesSame(s, s', t);
    }
    forall fd | fd in s'.open
      ensures AllFit(s'.channels[s'.open[fd]]) <==>
              forall i | 0 <= i < |s'.channels[s'.open[fd]].order| ::
                |s'.channels[s'.open[fd]].order[i].frame.payload| + 8 <= BufferSizes(s')[s'.open[fd]]
    {
      FitsExactly(s', s'.open[fd]);
    }
  }

  lemma RunKeepsFromStart(run: seq<Action>)
    requires Legal(Intended, START, run)
    ensures Possible(Intended, START, run) && Inv(Exec(Intended, START, run))
  {
    StartInv();
    RunKeeps(START, run);
  }

  // ---- Messages that do not fit

  /** The next message in lock order is larger than the peer's buffer. */
  predicate Blocked(ch: Channel) {
    |ch.delivered| < |ch.order| && |ch.order[|ch.delivered|].frame.Bytes()| > |ch.conn.buf|
  }

  /** That is, its payload has more than 8 bytes less than the buffer. */
  lemma BlockedExactly(ch: Channel)
    requires AddsUp(ch)
    ensures Blocked(ch) <==>
            |ch.delivered| < |ch.order| && |ch.order[|ch.delivered|].frame.payload| + 8 > |ch.conn.buf|
  {
    var lock :| ChannelOk(ch, lock);
    if |ch.delivered| < |ch.order| {
      assert Sound(Frames(ch.order)[|ch.delivered|]);
    }
  }

  /** A read delivers no more than the buffer holds. */
  lemma DeliveredFits(c: Window, data: seq<byte>)
    requires FitsWindow(c, Got(data))
    ensures var d := OnData(Intended, c, Got(data)).delivered; d != [] ==> |d[0].Bytes()| <= |c.buf|
  {
    var o := OnData(Intended, c, Got(data));
    IntendedConserves(c, Got(data));
    assert |Flatten(o.delivered) + Pending(o.conn)| == |Pending(c) + data|;
  }

  lemma NextDelivered(ch: Channel, lock: Lock, d: seq<Frame>)
    requires ch.delivered + d <= Complete(ch, lock) && d != []
    ensures |ch.delivered| < |ch.order| && d[0] == ch.order[|ch.delivered|].frame
  {
  }

  lemma BlockedRead(ch: Channel, lock: Lock, r: Recv)
    requires ChannelOk(ch, lock) && Blocked(ch) && CanRead(ch, r)
    ensures ReadFrom(Intended, ch, r).delivered == ch.delivered && Blocked(ReadFrom(Intended, ch, r))
  {
    match r
    case Failed => FailedReadKeepsAll(ch);
    case Got(data) =>
      var d := OnData(Intended, ch.conn, r).delivered;
      ReadTakesFrames(ch, lock, data);
      DeliveredFits(ch.conn, data);
      if d != [] {
        NextDelivered(ch, lock, d);
      }
  }

  /** What no read touches stays blocked, with more messages waiting perhaps. */
  lemma BlockedUnread(ch: Channel, ch': Channel)
    requires Blocked(ch) && ch'.conn == ch.conn && ch'.delivered == ch.delivered && ch.order <= ch'.order
    ensures Blocked(ch')
  {
  }

  lemma UnreadStep(s: State, a: Action, c: Cid)
    requires c < |s.channels| && Enabled(s, a) && !(a.Read? && a.conn == c)
    ensures var s' := Next(Intended, s, a);
            && c < |s'.channels| && s'.channels[c].conn == s.channels[c].conn
            && s'.channels[c].delivered == s.channels[c].delivered && s.channels[c].order <= s'.channels[c].order
  {
  }

  lemma StillBlocked(s: State, a: Action, c: Cid)
    requires Inv(s) && c < |s.channels| && Blocked(s.channels[c]) && Enabled(s, a)
    ensures var s' := Next(Intended, s, a);
            c < |s'.channels| && Blocked(s'.channels[c]) && s'.channels[c].delivered == s.channels[c].delivered
  {
    if a.Read? && a.conn == c {
      assert AddsUp(s.channels[c]);
      var lock :| ChannelOk(s.channels[c], lock);
      BlockedRead(s.channels[c], lock, a.received);
    } else {
      UnreadStep(s, a, c);
      BlockedUnread(s.channels[c], Next(Intended, s, a).channels[c]);
    }
  }

  /** A message that does not fit blocks its connection for good: whatever threads and peers do, nothing is
      delivered on it any more. */
  lemma {:induction false} BlockedForGood(s: State, run: seq<Action>, c: Cid)
    requires Inv(s) && c < |s.channels| && Blocked(s.channels[c]) && Legal(Intended, s, run)
    ensures Possible(Intended, s, run)
    ensures var s' := Exec(Intended, s, run);
            c < |s'.channels| && Blocked(s'.channels[c]) && s'.channels[c].delivered == s.channels[c].delivered
    decreases |run|
  {
    LegalIsPossible(Intended, s, run);
    if run != [] {
      StillBlocked(s, run[0], c);
      StepKeeps(s, run[0]);
      BlockedForGood(Next(Intended, s, run[0]), run[1..], c);
    }
  }
}
