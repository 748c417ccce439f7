/** The bookkeeping of the event loop: registered contexts, open descriptors and the kernel's interest set. */
module Registry {

  type Fd = int

  /** Identity of one element of m_polled_fids. epoll hands back a pointer to that element, so an event
      belongs to a registration, not just to a descriptor number. */
  type Node = nat

  /** ev_context. `once` tells that the callback is EvSignal::exec_once, which removes its own descriptor
      after the user callback; `onClosed`, that on_closed_cb is set. */
  datatype Context = Context(fd: Fd, once: bool, onClosed: bool)

  datatype Entry = Entry(node: Node, ctx: Context)

  /** m_polled_fids, m_open_fds, the kernel's interest set with the pointers stored in it, the next unused
      node, and every successful EPOLL_CTL_ADD and every close() so far. */
  datatype Loop = Loop(polled: map<Fd, Entry>, open: seq<Fd>, interest: map<Fd, Node>, next: Node,
                       taken: seq<Fd>, closed: seq<Fd>)

  const NO_FDS: Loop := Loop(map[], [], map[], 0, [], [])

  function Without(s: seq<Fd>, fd: Fd): (r: seq<Fd>)
    ensures fd !in r
    ensures forall x :: x in r <==> x in s && x != fd
  {
    if s == [] then [] else (if s[0] == fd then [] else [s[0]]) + Without(s[1..], fd)
  }

  predicate NoDuplicates(s: seq<Fd>) {
    forall i, j | 0 <= i < j < |s| :: s[i] != s[j]
  }

  lemma {:induction false} WithoutKeepsDistinct(s: seq<Fd>, fd: Fd)
    requires NoDuplicates(s)
    ensures NoDuplicates(Without(s, fd))
  {
    if s != [] {
      WithoutKeepsDistinct(s[1..], fd);
      assert s[0] !in s[1..];
    }
  }

  /** m_polled_fids[fd] = ctx: a present element is overwritten in place and keeps its address. */
  function Enter(l: Loop, ctx: Context): Loop {
    if ctx.fd in l.polled then
      l.(polled := l.polled[ctx.fd := Entry(l.polled[ctx.fd].node, ctx)])
    else
      l.(polled := l.polled[ctx.fd := Entry(l.next, ctx)], next := l.next + 1)
  }

  /** register_fd. `willing` is the kernel's answer; it always refuses a descriptor it already watches. */
  function Register(l: Loop, ctx: Context, willing: bool): Loop {
    var e := Enter(l, ctx);
    if willing && ctx.fd !in l.interest then
      e.(interest := e.interest[ctx.fd := e.polled[ctx.fd].node], open := e.open + [ctx.fd],
         taken := e.taken + [ctx.fd])
    else e
  }

  /** remove_fd. */
  function Remove(l: Loop, fd: Fd): Loop {
    if fd in l.open then
      l.(polled := l.polled - {fd}, open := Without(l.open, fd), interest := l.interest - {fd},
         closed := l.closed + [fd])
    else l
  }

  /** The three records agree: m_open_fds lists the kernel's interest set without duplicates, every watched
      descriptor has its context where the kernel's pointer points, every context sits under its own
      descriptor, and no two contexts share an address. */
  ghost predicate Consistent(l: Loop) {
    && NoDuplicates(l.open)
    && (forall fd :: fd in l.open <==> fd in l.interest)
    && (forall fd | fd in l.interest :: fd in l.polled && l.interest[fd] == l.polled[fd].node)
    && (forall fd | fd in l.polled :: l.polled[fd].ctx.fd == fd && l.polled[fd].node < l.next)
    && (forall fd, g | fd in l.polled && g in l.polled && fd != g :: l.polled[fd].node != l.polled[g].node)
  }

  lemma RegisterKeeps(l: Loop, ctx: Context, willing: bool)
    requires Consistent(l)
    ensures Consistent(Register(l, ctx, willing))
    ensures Register(l, ctx, willing).open
         == if willing && ctx.fd !in l.open then l.open + [ctx.fd] else l.open
  {
  }

  /** A registration enters the context, in place of the one there was for the same number or as a new element;
      and if the kernel agrees and does not watch the descriptor yet, it is watched from then on, with a pointer
      to that context. Nothing else changes. */
  lemma RegisterEffect(l: Loop, ctx: Context, willing: bool)
    requires Consistent(l)
    ensures var l' := Register(l, ctx, willing); var fd := ctx.fd;
            && fd in l'.polled && l'.polled[fd].ctx == ctx
            && (fd in l.polled ==> l'.polled[fd].node == l.polled[fd].node && l'.next == l.next)
            && (fd !in l.polled ==> l'.polled[fd].node >= l.next && l'.next > l'.polled[fd].node)
            && (willing && fd !in l.open ==>
                  && fd in l'.interest && l'.interest[fd] == l'.polled[fd].node
                  && l'.open == l.open + [fd] && l'.taken == l.taken + [fd])
            && (!willing || fd in l.open ==> l'.interest == l.interest && l'.open == l.open && l'.taken == l.taken)
            && OthersSame(l, l', fd) && l'.closed == l.closed
  {
  }

  ghost predicate OthersSame(l: Loop, l': Loop, fd: Fd) {
    forall g | g != fd ::
      && (g in l'.polled <==> g in l.polled) && (g in l.polled ==> l'.polled[g] == l.polled[g])
      && (g in l'.interest <==> g in l.interest) && (g in l.interest ==> l'.interest[g] == l.interest[g])
  }

  lemma {:induction false} WithoutOne(s: seq<Fd>, fd: Fd) returns (i: nat)
    requires NoDuplicates(s) && fd in s
    ensures i < |s| && s[i] == fd && Without(s, fd) == s[..i] + s[i + 1..]
  {
    if s[0] == fd {
      i := 0;
      NotThere(s[1..], fd);
    } else {
      var j := WithoutOne(s[1..], fd);
      i := j + 1;
    }
  }

  lemma {:induction false} NotThere(s: seq<Fd>, fd: Fd)
    requires fd !in s
    ensures Without(s, fd) == s
  {
    if s != [] {
      NotThere(s[1..], fd);
    }
  }

  /** A removal closes an open descriptor and takes it out of all three records, the list of open ones keeping
      its order; of a descriptor that is not open it does nothing. */
  lemma RemoveEffect(l: Loop, fd: Fd) returns (i: nat)
    requires Consistent(l)
    ensures var l' := Remove(l, fd);
            if fd in l.open then
              && i < |l.open| && l.open[i] == fd && l'.open == l.open[..i] + l.open[i + 1..]
              && fd !in l'.polled && fd !in l'.interest && l'.closed == l.closed + [fd]
              && OthersSame(l, l', fd) && l'.next == l.next && l'.taken == l.taken
            else l' == l
  {
    i := 0;
    if fd in l.open {
      i := WithoutOne(l.open, fd);
    }
  }

  lemma RemoveKeeps(l: Loop, fd: Fd)
    requires Consistent(l)
    ensures Consistent(Remove(l, fd))
    ensures fd !in Remove(l, fd).interest
  {
    WithoutKeepsDistinct(l.open, fd);
  }

  /** Every descriptor epoll ever took is either still open or has been closed once, as often as it was taken. */
  ghost predicate Accounted(l: Loop) {
    multiset(l.taken) == multiset(l.closed) + multiset(l.open)
  }

  lemma {:induction false} WithoutTakesOne(s: seq<Fd>, fd: Fd)
    requires NoDuplicates(s)
    ensures multiset(s) == multiset(Without(s, fd)) + if fd in s then multiset{fd} else multiset{}
  {
    if s != [] {
      assert s == [s[0]] + s[1..];
      assert s[0] !in s[1..];
      WithoutTakesOne(s[1..], fd);
      var head := if s[0] == fd then [] else [s[0]];
      assert multiset(head + Without(s[1..], fd)) == multiset(head) + multiset(Without(s[1..], fd));
    }
  }

  lemma OpAccounted(l: Loop, op: Op)
    requires Consistent(l) && Accounted(l)
    ensures Consistent(Apply(l, op)) && Accounted(Apply(l, op))
  {
    ApplyKeeps(l, op);
    if op.Del? {
      WithoutTakesOne(l.open, op.fd);
    }
  }

  /** A second removal does nothing, in any state. */
  lemma RemoveTwice(l: Loop, fd: Fd)
    ensures Remove(Remove(l, fd), fd) == Remove(l, fd)
  {
  }

  /** A registration the kernel refused leaves its context behind, and remove_fd can neither close the
      descriptor nor drop the context. */
  lemma RefusedStays(l: Loop, ctx: Context)
    requires Consistent(l) && ctx.fd !in l.open
    ensures var l' := Register(l, ctx, false);
            ctx.fd in l'.polled && l'.open == l.open && Remove(l', ctx.fd) == l'
  {
  }

  /** What a callback, or another thread, does to the loop. */
  datatype Op = Add(ctx: Context, willing: bool) | Del(fd: Fd) | Stop

  function Apply(l: Loop, op: Op): Loop {
    match op
    case Add(ctx, willing) => Register(l, ctx, willing)
    case Del(fd) => Remove(l, fd)
    case Stop => l
  }

  function ApplyAll(l: Loop, ops: seq<Op>): Loop
    decreases |ops|
  {
    if ops == [] then l else ApplyAll(Apply(l, ops[0]), ops[1..])
  }

  /** Any sequence of registrations, failing or not, and removals keeps the records in agreement. */
  lemma {:induction false} AllOpsKeep(l: Loop, ops: seq<Op>)
    requires Consistent(l)
    ensures Consistent(ApplyAll(l, ops))
    decreases |ops|
  {
    if ops != [] {
      ApplyKeeps(l, ops[0]);
      AllOpsKeep(Apply(l, ops[0]), ops[1..]);
    }
  }

  lemma ApplyKeeps(l: Loop, op: Op)
    requires Consistent(l)
    ensures Consistent(Apply(l, op))
  {
    match op
    case Add(ctx, willing) => RegisterKeeps(l, ctx, willing);
    case Del(fd) => RemoveKeeps(l, fd);
    case Stop =>
  }
}
