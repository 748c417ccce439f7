/** m_connection_map: a std::map from addresses to descriptors, ordered by socket_addr::operator<. */
module PortMap {

  /** Ports are unsigned shorts. */
  datatype SocketAddr = SocketAddr(ip: string, port: nat)

  datatype Pair = Pair(addr: SocketAddr, fd: int)

  /** socket_addr::operator<. */
  predicate Less(a: SocketAddr, b: SocketAddr) {
    if a.port < b.port then true else false
  }

  predicate Equivalent(a: SocketAddr, b: SocketAddr) {
    !Less(a, b) && !Less(b, a)
  }

  /** The order is one a std::map may use, and it takes two addresses for the same key exactly when they have
      the same port, whatever their hosts. */
  lemma StrictWeakOrder(a: SocketAddr, b: SocketAddr, c: SocketAddr)
    ensures !Less(a, a)
    ensures Less(a, b) && Less(b, c) ==> Less(a, c)
    ensures Equivalent(a, b) && Equivalent(b, c) ==> Equivalent(a, c)
    ensures Equivalent(a, b) <==> a.port == b.port
  {
  }

  /** The elements of the map in iteration order. */
  type Table = seq<Pair>

  predicate Sorted(m: Table) {
    forall i, j | 0 <= i < j < |m| :: Less(m[i].addr, m[j].addr)
  }

  /** lower_bound: the number of elements before the first one that is not less than `a`. */
  function LowerBound(m: Table, a: SocketAddr): (k: nat)
    ensures k <= |m|
    ensures k < |m| ==> !Less(m[k].addr, a)
    ensures forall i | 0 <= i < k :: Less(m[i].addr, a)
  {
    if m == [] || !Less(m[0].addr, a) then 0 else 1 + LowerBound(m[1..], a)
  }

  /** count(a) > 0. */
  predicate Has(m: Table, a: SocketAddr) {
    var k := LowerBound(m, a);
    k < |m| && Equivalent(m[k].addr, a)
  }

  /** m[a], when there is such an element. */
  function At(m: Table, a: SocketAddr): int
    requires Has(m, a)
  {
    m[LowerBound(m, a)].fd
  }

  /** m[a] = fd: a present element keeps its key and gets the new value. */
  function Put(m: Table, a: SocketAddr, fd: int): Table {
    var k := LowerBound(m, a);
    if Has(m, a) then m[k := Pair(m[k].addr, fd)] else m[..k] + [Pair(a, fd)] + m[k..]
  }

  /** find_if by value: the first element with the descriptor, or the end. */
  function FindFd(m: Table, fd: int): (k: nat)
    ensures k <= |m|
    ensures k < |m| ==> m[k].fd == fd
    ensures forall i | 0 <= i < k :: m[i].fd != fd
  {
    if m == [] || m[0].fd == fd then 0 else 1 + FindFd(m[1..], fd)
  }

  /** Erase what find_if found. */
  function EraseFd(m: Table, fd: int): Table {
    var k := FindFd(m, fd);
    if k < |m| then m[..k] + m[k + 1..] else m
  }

  /** What the map amounts to. */
  function ByPort(m: Table): map<nat, int>
    requires Sorted(m)
  {
    map i | 0 <= i < |m| :: m[i].addr.port := m[i].fd
  }

  lemma ByPortElement(m: Table, i: nat)
    requires Sorted(m) && i < |m|
    ensures m[i].addr.port in ByPort(m) && ByPort(m)[m[i].addr.port] == m[i].fd
  {
  }

  /** Lookup by any address finds what is stored for its port, with whatever host it was stored. */
  lemma LookupIsByPort(m: Table, a: SocketAddr)
    requires Sorted(m)
    ensures Has(m, a) <==> a.port in ByPort(m)
    ensures Has(m, a) ==> At(m, a) == ByPort(m)[a.port]
  {
  }

  lemma PutSorted(m: Table, a: SocketAddr, fd: int)
    requires Sorted(m)
    ensures Sorted(Put(m, a, fd))
  {
  }

  /** Every element but the stored one is an element of the old table. */
  lemma PutElement(m: Table, a: SocketAddr, fd: int, j: nat)
    requires Sorted(m) && j < |Put(m, a, fd)|
    ensures j == LowerBound(m, a) ==> Put(m, a, fd)[j].fd == fd && Put(m, a, fd)[j].addr.port == a.port
    ensures j != LowerBound(m, a) ==>
              var i := if j < LowerBound(m, a) || Has(m, a) then j else j - 1;
              i < |m| && Put(m, a, fd)[j] == m[i] && m[i].addr.port != a.port
  {
  }

  /** Nothing but the stored port is added or changed ... */
  lemma PutAddsNoOther(m: Table, a: SocketAddr, fd: int, p: nat)
    requires Sorted(m) && Sorted(Put(m, a, fd)) && p in ByPort(Put(m, a, fd))
    ensures p == a.port || p in ByPort(m)
    ensures ByPort(Put(m, a, fd))[p] == if p == a.port then fd else ByPort(m)[p]
  {
    var k, m' := LowerBound(m, a), Put(m, a, fd);
    var j :| 0 <= j < |m'| && m'[j].addr.port == p;
    PutElement(m, a, fd, j);
    ByPortElement(m', j);
    if j != k {
      ByPortElement(m, if j < k || Has(m, a) then j else j - 1);
    }
  }

  lemma OldElement(m: Table, a: SocketAddr, fd: int, i: nat)
    requires i < |m| && m[i].addr.port != a.port
    ensures var j := if i < LowerBound(m, a) || Has(m, a) then i else i + 1;
            j < |Put(m, a, fd)| && Put(m, a, fd)[j] == m[i]
  {
  }

  /** ... and nothing is lost. */
  lemma PutLosesNone(m: Table, a: SocketAddr, fd: int, p: nat)
    requires Sorted(m) && Sorted(Put(m, a, fd)) && (p == a.port || p in ByPort(m))
    ensures p in ByPort(Put(m, a, fd))
  {
    var k, m' := LowerBound(m, a), Put(m, a, fd);
    if p == a.port {
      PutElement(m, a, fd, k);
      ByPortElement(m', k);
    } else {
      var i :| 0 <= i < |m| && m[i].addr.port == p;
      OldElement(m, a, fd, i);
      ByPortElement(m', if i < k || Has(m, a) then i else i + 1);
    }
  }

  /** Storing an address stores its port: one entry per port, the last one wins. */
  lemma PutIsByPort(m: Table, a: SocketAddr, fd: int)
    requires Sorted(m)
    ensures Sorted(Put(m, a, fd))
    ensures ByPort(Put(m, a, fd)) == ByPort(m)[a.port := fd]
  {
    PutSorted(m, a, fd);
    forall p | p in ByPort(Put(m, a, fd))
      ensures p in ByPort(m)[a.port := fd] && ByPort(Put(m, a, fd))[p] == ByPort(m)[a.port := fd][p]
    {
      PutAddsNoOther(m, a, fd, p);
    }
    forall p | p in ByPort(m)[a.port := fd]
      ensures p in ByPort(Put(m, a, fd))
    {
      PutLosesNone(m, a, fd, p);
    }
  }

  function Addresses(m: Table): set<SocketAddr> {
    set i | 0 <= i < |m| :: m[i].addr
  }

  lemma StoredAddresses(m: Table, a: SocketAddr, fd: int)
    requires Sorted(m)
    ensures Addresses(Put(m, a, fd)) <= Addresses(m) + if Has(m, a) then {} else {a}
  {
    var m' := Put(m, a, fd);
    forall x | x in Addresses(m')
      ensures x in Addresses(m) + if Has(m, a) then {} else {a}
    {
      var j :| 0 <= j < |m'| && m'[j].addr == x;
      var k := LowerBound(m, a);
      if j != k || Has(m, a) {
        assert m[if j < k || Has(m, a) then j else j - 1].addr == x;
      }
    }
  }

  lemma KeptAddresses(m: Table, a: SocketAddr, fd: int)
    requires Sorted(m)
    ensures Addresses(m) + (if Has(m, a) then {} else {a}) <= Addresses(Put(m, a, fd))
  {
    var k, m' := LowerBound(m, a), Put(m, a, fd);
    forall x | x in Addresses(m)
      ensures x in Addresses(m')
    {
      var i :| 0 <= i < |m| && m[i].addr == x;
      assert m'[if i < k || Has(m, a) then i else i + 1].addr == x;
    }
    if !Has(m, a) {
      assert m'[k].addr == a;
    }
  }

  /** The host an entry was first stored with stays in the map: only a new port adds an address. */
  lemma PutKeepsAddresses(m: Table, a: SocketAddr, fd: int)
    requires Sorted(m)
    ensures Addresses(Put(m, a, fd)) == Addresses(m) + if a.port in ByPort(m) then {} else {a}
  {
    StoredAddresses(m, a, fd);
    KeptAddresses(m, a, fd);
    LookupIsByPort(m, a);
  }

  /** Two hosts with the same port share one entry: after the second connection, the address of the first
      host leads to the second host's descriptor. */
  lemma SamePortIsSameEntry(m: Table, a: SocketAddr, b: SocketAddr, f: int, g: int)
    requires Sorted(m) && a.port == b.port
    ensures var m' := Put(Put(m, a, f), b, g); Has(m', a) && At(m', a) == g
  {
    PutIsByPort(m, a, f);
    PutIsByPort(Put(m, a, f), b, g);
    LookupIsByPort(Put(Put(m, a, f), b, g), a);
  }

  predicate DistinctFds(m: Table) {
    forall i, j | 0 <= i < j < |m| :: m[i].fd != m[j].fd
  }

  function Fds(m: Table): set<int> {
    set i | 0 <= i < |m| :: m[i].fd
  }

  lemma ByPortFds(m: Table)
    requires Sorted(m)
    ensures ByPort(m).Values == Fds(m)
  {
    forall x | x in Fds(m)
      ensures x in ByPort(m).Values
    {
      var i :| 0 <= i < |m| && m[i].fd == x;
      ByPortElement(m, i);
    }
    forall x | x in ByPort(m).Values
      ensures x in Fds(m)
    {
      var p :| p in ByPort(m) && ByPort(m)[p] == x;
      var i :| 0 <= i < |m| && m[i].addr.port == p;
      ByPortElement(m, i);
    }
  }

  lemma EraseKeeps(m: Table, fd: int)
    requires Sorted(m) && DistinctFds(m)
    ensures Sorted(EraseFd(m, fd)) && DistinctFds(EraseFd(m, fd))
    ensures Fds(EraseFd(m, fd)) == Fds(m) - {fd}
  {
    var k, m' := FindFd(m, fd), EraseFd(m, fd);
    if k < |m| {
      assert forall i | 0 <= i < k :: m'[i] == m[i];
      assert forall i | k <= i < |m'| :: m'[i] == m[i + 1];
      forall x | x in Fds(m) - {fd}
        ensures x in Fds(m')
      {
        var i :| 0 <= i < |m| && m[i].fd == x;
        assert m'[if i < k then i else i - 1].fd == x;
      }
    }
  }

  function WithoutAt(m: Table, k: nat): (m': Table)
    requires k < |m|
    ensures |m'| == |m| - 1
    ensures forall j | 0 <= j < |m'| :: m'[j] == m[if j < k then j else j + 1]
  {
    m[..k] + m[k + 1..]
  }

  lemma WithoutAtEntry(m: Table, k: nat, p: nat)
    requires Sorted(m) && k < |m| && Sorted(WithoutAt(m, k))
    requires p in ByPort(WithoutAt(m, k))
    ensures p in ByPort(m) && p != m[k].addr.port && ByPort(WithoutAt(m, k))[p] == ByPort(m)[p]
  {
    var m' := WithoutAt(m, k);
    var j :| 0 <= j < |m'| && m'[j].addr.port == p;
    ByPortElement(m', j);
    ByPortElement(m, if j < k then j else j + 1);
  }

  lemma WithoutAtIndex(m: Table, k: nat, i: nat) returns (j: nat)
    requires k < |m| && i < |m| && i != k
    ensures j < |WithoutAt(m, k)| && WithoutAt(m, k)[j] == m[i]
  {
    j := if i < k then i else i - 1;
  }

  lemma WithoutAtKeeps(m: Table, k: nat, p: nat)
    requires Sorted(m) && k < |m| && Sorted(WithoutAt(m, k)) && p in ByPort(m) && p != m[k].addr.port
    ensures p in ByPort(WithoutAt(m, k))
  {
    var i :| 0 <= i < |m| && m[i].addr.port == p;
    var j := WithoutAtIndex(m, k, i);
    ByPortElement(WithoutAt(m, k), j);
  }

  lemma WithoutAtSorted(m: Table, k: nat)
    requires Sorted(m) && k < |m|
    ensures Sorted(WithoutAt(m, k))
  {
  }

  lemma EraseAt(m: Table, k: nat)
    requires Sorted(m) && k < |m| && Sorted(WithoutAt(m, k))
    ensures ByPort(WithoutAt(m, k)) == ByPort(m) - {m[k].addr.port}
  {
    forall p | p in ByPort(WithoutAt(m, k))
      ensures p in ByPort(m) - {m[k].addr.port} && ByPort(WithoutAt(m, k))[p] == ByPort(m)[p]
    {
      WithoutAtEntry(m, k, p);
    }
    forall p | p in ByPort(m) - {m[k].addr.port}
      ensures p in ByPort(WithoutAt(m, k))
    {
      WithoutAtKeeps(m, k, p);
    }
  }

  lemma FirstIsLowest(m: Table, fd: int, q: nat)
    requires Sorted(m) && q in ByPort(m) && ByPort(m)[q] == fd
    ensures FindFd(m, fd) < |m| && m[FindFd(m, fd)].addr.port <= q
  {
    var i :| 0 <= i < |m| && m[i].addr.port == q;
    ByPortElement(m, i);
  }

  lemma FoundExactly(m: Table, fd: int)
    ensures FindFd(m, fd) < |m| <==> fd in Fds(m)
    ensures EraseFd(m, fd) == if fd in Fds(m) then WithoutAt(m, FindFd(m, fd)) else m
  {
    if fd in Fds(m) {
      var i :| 0 <= i < |m| && m[i].fd == fd;
    }
  }

  /** Whatever the table, erasing a descriptor takes away one entry, that of the lowest port that names it, and
      leaves any other entry that names it. */
  lemma EraseTakesFirst(m: Table, fd: int) returns (p: nat)
    requires Sorted(m)
    ensures fd !in Fds(m) ==> EraseFd(m, fd) == m
    ensures Sorted(EraseFd(m, fd))
    ensures fd in Fds(m) ==>
              && p in ByPort(m) && ByPort(m)[p] == fd && (forall q | q in ByPort(m) && ByPort(m)[q] == fd :: p <= q)
              && ByPort(EraseFd(m, fd)) == ByPort(m) - {p}
  {
    var k := FindFd(m, fd);
    FoundExactly(m, fd);
    p := 0;
    if fd in Fds(m) {
      p := m[k].addr.port;
      ByPortElement(m, k);
      WithoutAtSorted(m, k);
      EraseAt(m, k);
      forall q | q in ByPort(m) && ByPort(m)[q] == fd
        ensures p <= q
      {
        FirstIsLowest(m, fd, q);
      }
    }
  }

  /** A new descriptor is distinct from all in the table, so it stays distinct after the store. */
  lemma PutKeepsDistinct(m: Table, a: SocketAddr, fd: int)
    requires Sorted(m) && DistinctFds(m) && fd !in Fds(m)
    ensures DistinctFds(Put(m, a, fd))
    ensures fd in Fds(Put(m, a, fd)) && Fds(Put(m, a, fd)) <= Fds(m) + {fd}
  {
    var k, m' := LowerBound(m, a), Put(m, a, fd);
    assert m'[k].fd == fd;
    forall j | 0 <= j < |m'| && j != k
      ensures m'[j].fd in Fds(m)
    {
      var i := if j < k || Has(m, a) then j else j - 1;
      assert m'[j] == m[i];
    }
  }

  // ---- Whole histories

  datatype Change = Store(addr: SocketAddr, fd: int) | Erase(fd: int)

  function Changed(m: Table, c: Change): Table {
    match c
    case Store(a, fd) => Put(m, a, fd)
    case Erase(fd) => EraseFd(m, fd)
  }

  function AllChanged(m: Table, cs: seq<Change>): Table {
    if cs == [] then m else Changed(AllChanged(m, cs[..|cs| - 1]), cs[|cs| - 1])
  }

  /** The descriptor last stored for a port. */
  function LastStored(cs: seq<Change>, port: nat, fallback: int): int {
    if cs == [] then fallback
    else
      var c := cs[|cs| - 1];
      if c.Store? && c.addr.port == port then c.fd else LastStored(cs[..|cs| - 1], port, fallback)
  }

  lemma EraseSubset(m: Table, fd: int, a: SocketAddr)
    requires Sorted(m)
    ensures Sorted(EraseFd(m, fd))
    ensures Has(EraseFd(m, fd), a) ==> Has(m, a) && At(EraseFd(m, fd), a) == At(m, a)
  {
    var k, m' := FindFd(m, fd), EraseFd(m, fd);
    if k < |m| {
      assert forall i | 0 <= i < k :: m'[i] == m[i];
      assert forall i | k <= i < |m'| :: m'[i] == m[i + 1];
      LookupIsByPort(m', a);
      LookupIsByPort(m, a);
      if Has(m', a) {
        var j := LowerBound(m', a);
        ByPortElement(m', j);
        ByPortElement(m, if j < k then j else j + 1);
      }
    }
  }

  /** In every history of stores and erasures, a lookup that finds anything finds the descriptor last stored
      for that port. */
  lemma {:induction false} LookupIsLastStored(cs: seq<Change>, a: SocketAddr)
    ensures Sorted(AllChanged([], cs))
    ensures var m := AllChanged([], cs); Has(m, a) ==> At(m, a) == LastStored(cs, a.port, 0)
    decreases |cs|
  {
    if cs != [] {
      var init, c := cs[..|cs| - 1], cs[|cs| - 1];
      LookupIsLastStored(init, a);
      var m := AllChanged([], init);
      match c
      case Store(b, fd) =>
        PutIsByPort(m, b, fd);
        LookupIsByPort(m, a);
        LookupIsByPort(Put(m, b, fd), a);
      case Erase(fd) =>
        EraseSubset(m, fd, a);
    }
  }
}
