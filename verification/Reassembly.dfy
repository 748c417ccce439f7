/** One call of on_data as a function on the receiver state, as the code has it and as it is meant,
    and what holds over any series of reads. */
module Reassembly {
  import opened Decimal
  import opened WireHeader
  import opened Framing

  /** AsWritten is the code. Intended differs in two places: after a header fragment `pos` is the length
      of the fragment, and a failed recv changes nothing. */
  datatype Variant = AsWritten | Intended

  /** What recv returned: -1, or the bytes it placed in the buffer. */
  datatype Recv = Failed | Got(data: seq<byte>)

  /** buf_struct: the whole buffer array and how many of its bytes are pending. */
  datatype Conn = Conn(buf: seq<byte>, pos: nat)

  type Window = c: Conn | c.pos <= |c.buf| witness Conn([], 0)

  datatype Outcome = Outcome(conn: Window, delivered: seq<Frame>)

  function Pending(c: Window): seq<byte> {
    c.buf[..c.pos]
  }

  function Stale(c: Window): seq<byte> {
    c.buf[c.pos..]
  }

  function Zeros(n: nat): (s: seq<byte>)
    ensures |s| == n && forall i | 0 <= i < n :: s[i] == NUL
  {
    seq(n, i => NUL)
  }

  /** recv never returns more than it was asked for: the free part of the buffer. */
  predicate FitsWindow(c: Window, r: Recv) {
    r.Got? ==> |r.data| <= |c.buf| - c.pos
  }

  /** The buffer once recv has stored `data` behind the pending bytes. */
  function Stored(c: Window, data: seq<byte>): (buf: seq<byte>)
    requires |data| <= |c.buf| - c.pos
    ensures |buf| == |c.buf|
  {
    c.buf[..c.pos] + data + c.buf[c.pos + |data|..]
  }

  /** on_data from the loop on, with `n` bytes in the buffer. */
  function Absorb(v: Variant, buf: seq<byte>, n: nat): (o: Outcome)
    requires n <= |buf|
    ensures |o.conn.buf| == |buf| && o.delivered == Split(buf[..n], buf[n..]).frames
    ensures v.Intended? ==> Pending(o.conn) == Split(buf[..n], buf[n..]).rest
  {
    var p := Split(buf[..n], buf[n..]);
    if p.rest == [] then
      Outcome(Conn(Zeros(|buf|), 0), p.frames)
    else
      var pos := if v.AsWritten? && |p.rest| < HEADER_LEN then n else |p.rest|;
      Outcome(Conn(p.rest + buf[|p.rest|..], pos), p.frames)
  }

  /** on_data after recv: `n` is what the code calls bytes_recv, and may be negative. */
  function AfterRecv(v: Variant, buf: seq<byte>, n: int): (o: Outcome)
    requires n <= |buf|
    ensures |o.conn.buf| == |buf|
  {
    if n <= 0 then Outcome(Conn(buf, 0), []) else Absorb(v, buf, n)
  }

  /** One call of on_data. */
  function OnData(v: Variant, c: Window, r: Recv): (o: Outcome)
    requires FitsWindow(c, r)
    ensures |o.conn.buf| == |c.buf|
  {
    match r
    case Failed => if v.Intended? then Outcome(c, []) else AfterRecv(v, c.buf, c.pos - 1)
    case Got(data) => AfterRecv(v, Stored(c, data), c.pos + |data|)
  }

  // ---- One read

  lemma SplitNothing(t: seq<byte>)
    ensures Split([], t) == Parsed([], [])
  {
  }

  lemma StoredSlices(c: Window, data: seq<byte>)
    requires |data| <= |c.buf| - c.pos
    ensures Stored(c, data)[..c.pos + |data|] == Pending(c) + data
    ensures Stored(c, data)[c.pos + |data|..] == Stale(c)[|data|..]
  {
  }

  lemma AfterRecvIsSplit(buf: seq<byte>, n: nat)
    requires n <= |buf|
    ensures var o, p := AfterRecv(Intended, buf, n), Split(buf[..n], buf[n..]);
            o.delivered == p.frames && Pending(o.conn) == p.rest
  {
    if n == 0 {
      SplitNothing(buf[n..]);
    } else {
      SplitConserves(buf[..n], buf[n..]);
    }
  }

  /** A read is the loop over pending ++ data. */
  lemma ReadIsSplit(c: Window, data: seq<byte>)
    requires |data| <= |c.buf| - c.pos
    ensures var o, p := OnData(Intended, c, Got(data)), Split(Pending(c) + data, Stale(c)[|data|..]);
            o.delivered == p.frames && Pending(o.conn) == p.rest
  {
    StoredSlices(c, data);
    AfterRecvIsSplit(Stored(c, data), c.pos + |data|);
  }

  /** What the loop leaves in the buffer when a rest stays behind. */
  lemma RestStays(v: Variant, buf: seq<byte>, n: nat, p: Parsed)
    requires n <= |buf| && Split(buf[..n], buf[n..]) == p && p.rest != []
    ensures |p.rest| <= n
    ensures var pos := if v.AsWritten? && |p.rest| < HEADER_LEN then n else |p.rest|;
            AfterRecv(v, buf, n) == Outcome(Conn(p.rest + buf[|p.rest|..], pos), p.frames)
  {
  }

  lemma StoredAt(c: Window, data: seq<byte>, i: nat)
    requires |data| <= |c.buf| - c.pos && i < |c.buf|
    ensures Stored(c, data)[i] == if c.pos <= i < c.pos + |data| then data[i - c.pos] else c.buf[i]
  {
  }

  /** The whole buffer after a successful read, in both variants: zeroed when nothing is left ... */
  lemma BufferCleared(v: Variant, c: Window, data: seq<byte>)
    requires |data| <= |c.buf| - c.pos && c.pos + |data| > 0
    requires Split(Pending(c) + data, Stale(c)[|data|..]).rest == []
    ensures var o := OnData(v, c, Got(data));
            o.conn.pos == 0 && |o.conn.buf| == |c.buf| && forall i | 0 <= i < |c.buf| :: o.conn.buf[i] == NUL
  {
    StoredSlices(c, data);
  }

  /** ... and else the rest in front, and every byte behind it as recv left it. */
  lemma BufferKept(v: Variant, c: Window, data: seq<byte>)
    requires |data| <= |c.buf| - c.pos && c.pos + |data| > 0
    requires Split(Pending(c) + data, Stale(c)[|data|..]).rest != []
    ensures var o, rest := OnData(v, c, Got(data)), Split(Pending(c) + data, Stale(c)[|data|..]).rest;
            && |rest| <= |c.buf| == |o.conn.buf| && o.conn.buf[..|rest|] == rest
            && forall i | |rest| <= i < |c.buf| ::
                 o.conn.buf[i] == if c.pos <= i < c.pos + |data| then data[i - c.pos] else c.buf[i]
  {
    StoredSlices(c, data);
    var buf, n := Stored(c, data), c.pos + |data|;
    RestStays(v, buf, n, Split(buf[..n], buf[n..]));
    forall i | 0 <= i < |c.buf|
      ensures buf[i] == if c.pos <= i < c.pos + |data| then data[i - c.pos] else c.buf[i]
    {
      StoredAt(c, data, i);
    }
  }

  lemma AfterRecvFrames(v: Variant, buf: seq<byte>, n: nat)
    requires n <= |buf|
    ensures AfterRecv(v, buf, n).delivered == Split(buf[..n], buf[n..]).frames
  {
    if n == 0 {
      SplitNothing(buf[n..]);
    }
  }

  /** What a successful read delivers, in both variants. */
  lemma DeliveredFrames(v: Variant, c: Window, data: seq<byte>)
    requires |data| <= |c.buf| - c.pos
    ensures OnData(v, c, Got(data)).delivered == Split(Pending(c) + data, Stale(c)[|data|..]).frames
  {
    StoredSlices(c, data);
    AfterRecvFrames(v, Stored(c, data), c.pos + |data|);
  }

  /** A failed read of the code with bytes pending runs the loop over all of them but the last one. */
  lemma FailedReadRunsLoop(c: Window)
    requires c.pos > 1
    ensures OnData(AsWritten, c, Failed).delivered == Split(c.buf[..c.pos - 1], c.buf[c.pos - 1..]).frames
    ensures var p := Split(c.buf[..c.pos - 1], c.buf[c.pos - 1..]);
            |p.rest| >= HEADER_LEN || p.rest == [] ==> Pending(OnData(AsWritten, c, Failed).conn) == p.rest
  {
  }

  /** Byte conservation of the intended step on arbitrary bytes: what was pending and what was read is
      what was delivered and what is pending now. A failed read changes nothing. */
  lemma IntendedConserves(c: Window, r: Recv)
    requires FitsWindow(c, r)
    ensures var o := OnData(Intended, c, r);
            Flatten(o.delivered) + Pending(o.conn) == Pending(c) + (if r.Got? then r.data else [])
  {
    match r
    case Failed =>
      assert [] + Pending(c) == Pending(c) + [];
    case Got(data) =>
      ReadIsSplit(c, data);
      SplitConserves(Pending(c) + data, Stale(c)[|data|..]);
  }

  /** A zero-byte read (the peer closed, or the buffer is full) with one incomplete frame pending: the
      same state, nothing delivered, in both variants. */
  lemma EmptyReadIsNoOp(v: Variant, c: Window)
    requires Split(Pending(c), Stale(c)) == Parsed([], Pending(c))
    ensures OnData(v, c, Got([])) == Outcome(c, [])
  {
    StoredSlices(c, []);
    assert Stored(c, []) == c.buf;
    assert Pending(c) + [] == Pending(c) && Stale(c)[0..] == Stale(c);
    assert Pending(c) + c.buf[c.pos..] == c.buf;
  }

  // ---- As written against intended

  /** The case that tells the variants apart: fewer than 8 bytes follow a frame completed in this call. */
  predicate FragmentAfterFrame(c: Window, data: seq<byte>)
    requires |data| <= |c.buf| - c.pos
  {
    var p := Split(Pending(c) + data, Stale(c)[|data|..]);
    p.frames != [] && 0 < |p.rest| < HEADER_LEN
  }

  predicate Faulty(c: Window, r: Recv)
    requires FitsWindow(c, r)
  {
    match r
    case Failed => c.pos > 0
    case Got(data) => FragmentAfterFrame(c, data)
  }

  lemma FramesAreBytes(s: seq<byte>, t: seq<byte>)
    ensures var p := Split(s, t); |p.rest| <= |s| && (p.frames == [] <==> p.rest == s)
  {
  }

  /** The fragment branch keeps too many bytes: `pos` also counts the bytes of the frames that were just
      delivered, so old buffer contents behind the fragment become pending again. */
  lemma FragmentFault(c: Window, data: seq<byte>)
    requires |data| <= |c.buf| - c.pos && FragmentAfterFrame(c, data)
    ensures var w, o := OnData(AsWritten, c, Got(data)), OnData(Intended, c, Got(data));
            && w.delivered == o.delivered && w.conn.buf == o.conn.buf
            && w.conn.pos == o.conn.pos + |Flatten(o.delivered)| > o.conn.pos
  {
    StoredSlices(c, data);
    FramesAreBytes(Pending(c) + data, Stale(c)[|data|..]);
    SplitConserves(Pending(c) + data, Stale(c)[|data|..]);
  }

  /** The failed read with bytes pending always ends with fewer pending bytes than before. */
  lemma FailedReadFault(c: Window)
    requires c.pos > 0
    ensures OnData(AsWritten, c, Failed).conn.pos < c.pos
  {
  }

  /** With one incomplete frame pending, the failed read silently drops its last byte. */
  lemma FailedReadDropsLastByte(c: Window)
    requires c.pos > 0 && Incomplete(Pending(c))
    ensures OnData(AsWritten, c, Failed) == Outcome(c.(pos := c.pos - 1), [])
  {
    var q := c.buf[..c.pos - 1];
    PrefixIncomplete(q, Pending(c));
    if c.pos > 1 {
      SplitShort(q, c.buf[c.pos - 1..]);
      assert q + c.buf[c.pos - 1..] == c.buf;
    }
  }

  /** The two variants agree on a call exactly when it is not one of the two faulty cases. */
  lemma VariantsAgree(c: Window, r: Recv)
    requires FitsWindow(c, r)
    ensures OnData(AsWritten, c, r) == OnData(Intended, c, r) <==> !Faulty(c, r)
  {
    match r
    case Failed =>
      if c.pos > 0 {
        FailedReadFault(c);
      }
    case Got(data) =>
      StoredSlices(c, data);
      FramesAreBytes(Pending(c) + data, Stale(c)[|data|..]);
      if FragmentAfterFrame(c, data) {
        FragmentFault(c, data);
      }
  }

  lemma FailedReadLength(c: Window)
    requires c.pos > 0
    ensures var o := OnData(AsWritten, c, Failed); |Flatten(o.delivered)| + o.conn.pos != c.pos
  {
    if c.pos > 1 {
      var q, t := c.buf[..c.pos - 1], c.buf[c.pos - 1..];
      SplitConserves(q, t);
      FramesAreBytes(q, t);
    }
  }

  /** So the code conserves bytes on a call exactly when the call is not faulty. */
  lemma AsWrittenConserves(c: Window, r: Recv)
    requires FitsWindow(c, r)
    ensures var o := OnData(AsWritten, c, r);
            Flatten(o.delivered) + Pending(o.conn) == Pending(c) + (if r.Got? then r.data else [])
            <==> !Faulty(c, r)
  {
    if !Faulty(c, r) {
      VariantsAgree(c, r);
      IntendedConserves(c, r);
    } else if r.Failed? {
      FailedReadLength(c);
    } else {
      FragmentFault(c, r.data);
      IntendedConserves(c, r);
    }
  }
}
