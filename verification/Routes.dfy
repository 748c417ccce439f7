/** When no send of a run misses: what accept, connect, close and the user may do to the connection table, the
    handles and the descriptors while calls are under way. */
module Routes {
  import opened Reassembly
  import opened SendProtocol
  import opened SendInvariant

  /** A call that has found its descriptor would still find it, and that descriptor does not stand for another
      connection than it did when the mutex was taken. */
  ghost predicate RouteHolds(s: State, p: Phase)
    requires p.Active()
  {
    && Found(s, p.route) == p.fd
    && (p.Holding() ==> Where(s, p.fd) == p.place || Where(s, p.fd) == Nowhere)
  }

  ghost predicate Routed(s: State) {
    forall t | PhaseOf(s, t).Active() :: RouteHolds(s, PhaseOf(s, t))
  }

  /** A call under way has found its descriptor by this address, or by this handle. */
  ghost predicate AddressInUse(s: State, port: Port) {
    exists t :: PhaseOf(s, t).Active() && PhaseOf(s, t).route == ByAddress(port)
  }

  ghost predicate HandleInUse(s: State, h: Handle) {
    exists t :: PhaseOf(s, t).Active() && !PhaseOf(s, t).route.ByAddress? && PhaseOf(s, t).route.handle == h
  }

  /** The step changes no table entry and no socket of a handle by which a call under way has found its
      descriptor, and gives no new connection a number whose mutex is held. */
  ghost predicate SparesRoutes(s: State, a: Action)
    requires Enabled(s, a)
  {
    match a
    case Connected(t, fd, _) =>
      var h := PhaseOf(s, t).handle;
      && (EntryOf(s, h.port) == fd || !AddressInUse(s, h.port))
      && (SocketOf(s, h) == fd || !HandleInUse(s, h))
      && fd !in s.mutexes
    case Accepted(port, fd, _) => (EntryOf(s, port) == fd || !AddressInUse(s, port)) && fd !in s.mutexes
    case Dropped(port) => EntryOf(s, port) == STDIN || !AddressInUse(s, port)
    case SetSocket(h, fd) => SocketOf(s, h) == fd || !HandleInUse(s, h)
    case _ => true
  }

  lemma RoutedOnTarget(s: State, a: Action)
    requires Routed(s) && Enabled(s, a)
    ensures OnTarget(s, a)
  {
    if a.SendHeader? || a.SendPayload? {
      assert RouteHolds(s, PhaseOf(s, a.tid));
    }
  }

  lemma SameFound(s: State, s': State, route: Route)
    requires s'.table == LookedUp(s, route) && s'.sockets == s.sockets
    ensures forall r :: Found(s', r) == Found(s, r)
  {
  }

  /** Who moves is routed, and everybody else finds what he found before, as long as it is open. */
  lemma RoutesKept(s: State, s': State, movers: set<Tid>)
    requires Routed(s)
    requires forall u | u !in movers :: PhaseOf(s', u) == PhaseOf(s, u)
    requires forall u | u in movers && PhaseOf(s', u).Active() :: RouteHolds(s', PhaseOf(s', u))
    requires forall u | u !in movers && PhaseOf(s, u).Active() ::
               Found(s', PhaseOf(s, u).route) == Found(s, PhaseOf(s, u).route)
    requires forall u | u !in movers && PhaseOf(s, u).Holding() ::
               Where(s', PhaseOf(s, u).fd) in {Where(s, PhaseOf(s, u).fd), Nowhere}
    ensures Routed(s')
  {
    forall u | PhaseOf(s', u).Active()
      ensures RouteHolds(s', PhaseOf(s', u))
    {
      assert u !in movers ==> RouteHolds(s, PhaseOf(s, u));
    }
  }

  /** Steps of the calls themselves change nothing that others find. */
  lemma CallStepSpares(s: State, a: Action)
    requires Enabled(s, a)
    requires a.Enter? || a.ConnectFailed? || a.Look? || a.Acquire? || a.SendHeader? || a.SendPayload?
    ensures var s' := Next(Intended, s, a);
            && (forall r :: Found(s', r) == Found(s, r)) && (forall fd :: Where(s', fd) == Where(s, fd))
            && forall u | u != a.tid :: PhaseOf(s', u) == PhaseOf(s, u)
  {
    if a.Look? || a.SendHeader? || a.SendPayload? {
      SameFound(s, Next(Intended, s, a), PhaseOf(s, a.tid).route);
    }
  }

  lemma MoverRouted(s: State, a: Action)
    requires Routed(s) && Enabled(s, a)
    requires a.Enter? || a.ConnectFailed? || a.Look? || a.Acquire? || a.SendHeader? || a.SendPayload?
    ensures var s' := Next(Intended, s, a);
            PhaseOf(s', a.tid).Active() ==> RouteHolds(s', PhaseOf(s', a.tid))
  {
    CallStepSpares(s, a);
    if PhaseOf(s, a.tid).Active() {
      assert RouteHolds(s, PhaseOf(s, a.tid));
    }
  }

  lemma CallStepKeeps(s: State, a: Action)
    requires Routed(s) && Enabled(s, a)
    requires a.Enter? || a.ConnectFailed? || a.Look? || a.Acquire? || a.SendHeader? || a.SendPayload?
    ensures Routed(Next(Intended, s, a))
  {
    CallStepSpares(s, a);
    MoverRouted(s, a);
    RoutesKept(s, Next(Intended, s, a), {a.tid});
  }

  lemma NoNumberHeld(s: State, fd: Fd)
    requires MutexOk(s) && fd !in s.mutexes
    ensures forall t | PhaseOf(s, t).Holding() :: PhaseOf(s, t).fd != fd
  {
  }

  lemma OpeningPlaces(s: State, a: Action)
    requires OpenOk(s) && Enabled(s, a) && (a.Connected? || a.Accepted?)
    ensures forall fd | fd != a.fd :: Where(Next(Intended, s, a), fd) == Where(s, fd)
  {
  }

  /** What opening a descriptor changes for the calls under way: nothing, if it spares their routes. */
  lemma OpeningSpares(s: State, a: Action, t: Tid)
    requires Enabled(s, a) && SparesRoutes(s, a) && (a.Connected? || a.Accepted?)
    requires PhaseOf(s, t).Active()
    ensures var p, s' := PhaseOf(s, t), Next(Intended, s, a);
            PhaseOf(s', t) == p && Found(s', p.route) == Found(s, p.route)
  {
  }

  lemma OpeningKeeps(s: State, a: Action)
    requires Inv(s) && Routed(s) && Enabled(s, a) && SparesRoutes(s, a) && (a.Connected? || a.Accepted?)
    ensures Routed(Next(Intended, s, a))
  {
    var s' := Next(Intended, s, a);
    NoNumberHeld(s, a.fd);
    OpeningPlaces(s, a);
    forall t | PhaseOf(s', t).Active()
      ensures RouteHolds(s', PhaseOf(s', t))
    {
      assert RouteHolds(s, PhaseOf(s, t));
      OpeningSpares(s, a, t);
    }
  }

  lemma OtherStepKeeps(s: State, a: Action)
    requires Inv(s) && Routed(s) && Enabled(s, a) && SparesRoutes(s, a)
    requires a.Dropped? || a.SetSocket? || a.Closed? || a.Read?
    ensures Routed(Next(Intended, s, a))
  {
    RoutesKept(s, Next(Intended, s, a), {});
  }

  lemma SparingKeeps(s: State, a: Action)
    requires Inv(s) && Routed(s) && Enabled(s, a) && SparesRoutes(s, a)
    ensures Routed(Next(Intended, s, a))
  {
    if a.Connected? || a.Accepted? {
      OpeningKeeps(s, a);
    } else if a.Dropped? || a.SetSocket? || a.Closed? || a.Read? {
      OtherStepKeeps(s, a);
    } else {
      CallStepKeeps(s, a);
    }
  }

  /** A call loses its route when it would find another descriptor, or its own stands for something else. */
  lemma RouteLost(s: State, s': State, t: Tid)
    requires PhaseOf(s, t).Active() && PhaseOf(s', t) == PhaseOf(s, t)
    requires !RouteHolds(s', PhaseOf(s, t))
    ensures !Routed(s')
  {
  }

  lemma NumberReused(s: State, a: Action)
    requires Inv(s) && Routed(s) && Enabled(s, a) && (a.Connected? || a.Accepted?) && a.fd in s.mutexes
    ensures !Routed(Next(Intended, s, a))
  {
    var t := s.mutexes[a.fd];
    assert PhaseOk(s, PhaseOf(s, t));
    RouteLost(s, Next(Intended, s, a), t);
  }

  lemma RouteChanged(s: State, a: Action, t: Tid)
    requires Inv(s) && Routed(s) && Enabled(s, a) && PhaseOf(s, t).Active()
    requires a.Connected? || a.Accepted? || a.Dropped? || a.SetSocket?
    requires Found(Next(Intended, s, a), PhaseOf(s, t).route) != Found(s, PhaseOf(s, t).route)
    ensures !Routed(Next(Intended, s, a))
  {
    assert RouteHolds(s, PhaseOf(s, t));
    RouteLost(s, Next(Intended, s, a), t);
  }

  lemma UnsparingBreaks(s: State, a: Action)
    requires Inv(s) && Routed(s) && Enabled(s, a) && !SparesRoutes(s, a)
    ensures !Routed(Next(Intended, s, a))
  {
    var s' := Next(Intended, s, a);
    var route := if a.Connected? then ByAddress(PhaseOf(s, a.tid).handle.port)
                 else if a.SetSocket? then ByAddress(a.handle.port) else ByAddress(a.port);
    if (a.Connected? || a.Accepted?) && a.fd in s.mutexes {
      NumberReused(s, a);
    } else if !a.SetSocket? && Found(s', route) != Found(s, route) && AddressInUse(s, route.port) {
      var t :| PhaseOf(s, t).Active() && PhaseOf(s, t).route == route;
      RouteChanged(s, a, t);
    } else {
      var h := if a.Connected? then PhaseOf(s, a.tid).handle else a.handle;
      var t :| PhaseOf(s, t).Active() && !PhaseOf(s, t).route.ByAddress? && PhaseOf(s, t).route.handle == h;
      RouteChanged(s, a, t);
    }
  }

  /** While all calls are routed no send misses; and they stay routed exactly as long as no entry and no socket
      by which one has found its descriptor is changed, and no number whose mutex is held is given to a new
      connection. */
  lemma RoutedExactlyWhenSpared(s: State, a: Action)
    requires Inv(s) && Routed(s) && Enabled(s, a)
    ensures OnTarget(s, a)
    ensures Routed(Next(Intended, s, a)) <==> SparesRoutes(s, a)
  {
    RoutedOnTarget(s, a);
    if SparesRoutes(s, a) {
      SparingKeeps(s, a);
    } else {
      UnsparingBreaks(s, a);
    }
  }

  // ---- Descriptors the table names

  /** Every call that has found its descriptor has one that the table names. */
  ghost predicate Named(s: State) {
    forall t | PhaseOf(s, t).Active() :: PhaseOf(s, t).fd in s.table.Values
  }

  /** The entry of `port` is not the only one that names the descriptor of a call under way. */
  ghost predicate Unneeded(s: State, port: Port) {
    port in s.table ==>
      || (forall t | PhaseOf(s, t).Active() :: PhaseOf(s, t).fd != s.table[port])
      || exists q :: q != port && q in s.table && s.table[q] == s.table[port]
  }

  ghost predicate SparesEntries(s: State, a: Action)
    requires Enabled(s, a)
  {
    match a
    case Connected(t, fd, _) => var port := PhaseOf(s, t).handle.port; EntryOf(s, port) == fd || Unneeded(s, port)
    case Accepted(port, fd, _) => EntryOf(s, port) == fd || Unneeded(s, port)
    case Dropped(port) => Unneeded(s, port)
    case Look(t) => PhaseOf(s, t).route.ByAddress? || Found(s, PhaseOf(s, t).route) in s.table.Values
    case _ => true
  }

  /** What the table names stays named unless it was the last entry for it that has gone. */
  lemma EntryStays(s: State, s': State, port: Port, fd: Fd)
    requires fd in s.table.Values
    requires forall q | q in s.table && q != port :: q in s'.table && s'.table[q] == s.table[q]
    requires port in s.table && s.table[port] == fd ==>
               || (port in s'.table && s'.table[port] == fd)
               || exists q :: q != port && q in s.table && s.table[q] == fd
    ensures fd in s'.table.Values
  {
    var q :| q in s.table && s.table[q] == fd;
    if q != port {
      assert s'.table[q] == fd;
    } else if r :| r != port && r in s.table && s.table[r] == fd {
      assert s'.table[r] == fd;
    } else {
      assert s'.table[port] == fd;
    }
  }

  lemma EntryGoes(s: State, s': State, port: Port)
    requires port in s.table && !(exists q :: q != port && q in s.table && s.table[q] == s.table[port])
    requires forall q | q in s'.table && q != port :: q in s.table && s'.table[q] == s.table[q]
    requires port in s'.table ==> s'.table[port] != s.table[port]
    ensures s.table[port] !in s'.table.Values
  {
  }

  lemma OneEntryChanges(s: State, s': State, port: Port, stays: bool)
    requires Named(s) && forall t | PhaseOf(s, t).Active() || PhaseOf(s', t).Active() :: PhaseOf(s', t) == PhaseOf(s, t)
    requires forall q | q != port :: (q in s'.table <==> q in s.table) && (q in s.table ==> s'.table[q] == s.table[q])
    requires stays <==> (port in s.table ==> port in s'.table && s'.table[port] == s.table[port])
    ensures Named(s') <==> stays || Unneeded(s, port)
  {
    if stays || Unneeded(s, port) {
      forall t | PhaseOf(s', t).Active()
        ensures PhaseOf(s', t).fd in s'.table.Values
      {
        EntryStays(s, s', port, PhaseOf(s, t).fd);
      }
    } else {
      EntryGoes(s, s', port);
    }
  }

  lemma LookNamed(s: State, t: Tid)
    requires Named(s) && Enabled(s, Look(t))
    ensures Named(Next(Intended, s, Look(t))) <==> SparesEntries(s, Look(t))
  {
    var p, s' := PhaseOf(s, t), Next(Intended, s, Look(t));
    assert PhaseOf(s', t).Active() && PhaseOf(s', t).fd == Found(s, p.route);
    assert forall q | q in s.table :: q in s'.table && s'.table[q] == s.table[q];
    if p.route.ByAddress? {
      assert s'.table[p.route.port] == Found(s, p.route);
    }
    assert s.table.Values <= s'.table.Values;
    forall u | u != t && PhaseOf(s', u).Active()
      ensures PhaseOf(s', u).fd in s'.table.Values
    {
      assert PhaseOf(s, u).fd in s.table.Values;
    }
  }

  lemma SendNamed(s: State, a: Action)
    requires Named(s) && Enabled(s, a) && !a.Connected? && !a.Accepted? && !a.Dropped? && !a.Look?
    ensures Named(Next(Intended, s, a))
  {
    var s' := Next(Intended, s, a);
    assert forall q | q in s.table :: q in s'.table && s'.table[q] == s.table[q];
    assert s.table.Values <= s'.table.Values;
    assert forall t | PhaseOf(s', t).Active() :: PhaseOf(s, t).Active() && PhaseOf(s', t).fd == PhaseOf(s, t).fd;
  }

  /** The table goes on naming the descriptor of every call exactly as long as no last entry for one is replaced
      or dropped, and no call finds by its handle a descriptor that the table does not name. */
  lemma NamedExactlyWhenSpared(s: State, a: Action)
    requires Named(s) && Enabled(s, a)
    ensures Named(Next(Intended, s, a)) <==> SparesEntries(s, a)
  {
    var s' := Next(Intended, s, a);
    match a
    case Connected(t, fd, _) =>
      var port := PhaseOf(s, t).handle.port;
      OneEntryChanges(s, s', port, port in s.table ==> s.table[port] == fd);
    case Accepted(port, fd, _) => OneEntryChanges(s, s', port, port in s.table ==> s.table[port] == fd);
    case Dropped(port) => OneEntryChanges(s, s', port, port !in s.table);
    case Look(t) => LookNamed(s, t);
    case _ => SendNamed(s, a);
  }

  // ---- Runs

  /** Small messages, and no step that changes the route of a call under way. */
  ghost predicate Sparing(s: State, run: seq<Action>)
    decreases |run|
  {
    run == [] || (&& Enabled(s, run[0]) && SparesRoutes(s, run[0]) && Small(run[0])
                  && Sparing(Next(Intended, s, run[0]), run[1..]))
  }

  /** In such runs no send misses. */
  lemma {:induction false} SparingIsLegal(s: State, run: seq<Action>)
    requires Inv(s) && Routed(s) && Sparing(s, run)
    ensures Legal(Intended, s, run) && Possible(Intended, s, run)
    ensures Routed(Exec(Intended, s, run))
    decreases |run|
  {
    if run != [] {
      RoutedExactlyWhenSpared(s, run[0]);
      StepKeeps(s, run[0]);
      SparingIsLegal(Next(Intended, s, run[0]), run[1..]);
    }
  }

  /** ... and no step either that takes the name of a descriptor in use out of the table. */
  ghost predicate Stable(s: State, run: seq<Action>)
    decreases |run|
  {
    run == [] || (&& Enabled(s, run[0]) && SparesRoutes(s, run[0]) && SparesEntries(s, run[0]) && Small(run[0])
                  && Stable(Next(Intended, s, run[0]), run[1..]))
  }

  lemma {:induction false} StableKeepsNamed(s: State, run: seq<Action>)
    requires Named(s) && Stable(s, run)
    ensures Sparing(s, run) && Possible(Intended, s, run)
    ensures Named(Exec(Intended, s, run))
    decreases |run|
  {
    if run != [] {
      NamedExactlyWhenSpared(s, run[0]);
      StableKeepsNamed(Next(Intended, s, run[0]), run[1..]);
    }
  }
}
