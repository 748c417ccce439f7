/** Any series of reads on one connection. */
module ReadRuns {
  import opened Decimal
  import opened Framing
  import opened Reassembly

  /** Every read of the series fits the free part of the buffer it finds. */
  predicate Feasible(v: Variant, c: Window, rs: seq<Recv>)
    decreases |rs|
  {
    rs == [] || (FitsWindow(c, rs[0]) && Feasible(v, OnData(v, c, rs[0]).conn, rs[1..]))
  }

  /** The final state and everything delivered on the way. */
  function Run(v: Variant, c: Window, rs: seq<Recv>): Outcome
    requires Feasible(v, c, rs)
    decreases |rs|
  {
    if rs == [] then Outcome(c, [])
    else
      var o := OnData(v, c, rs[0]);
      var q := Run(v, o.conn, rs[1..]);
      Outcome(q.conn, o.delivered + q.delivered)
  }

  function DataOf(r: Recv): seq<byte> {
    if r.Got? then r.data else []
  }

  /** All bytes the series takes off the wire. */
  function Received(rs: seq<Recv>): seq<byte> {
    if rs == [] then [] else DataOf(rs[0]) + Received(rs[1..])
  }

  predicate NoFailures(rs: seq<Recv>) {
    forall i | 0 <= i < |rs| :: rs[i].Got?
  }

  /** No call of the series, run as the code is written, is one of the faulty cases. */
  predicate FaultFree(c: Window, rs: seq<Recv>)
    requires Feasible(AsWritten, c, rs)
    decreases |rs|
  {
    rs == [] || (!Faulty(c, rs[0]) && FaultFree(OnData(AsWritten, c, rs[0]).conn, rs[1..]))
  }

  lemma OneRead(v: Variant, c: Window, a: Recv)
    requires FitsWindow(c, a)
    ensures Feasible(v, c, [a]) && Run(v, c, [a]) == OnData(v, c, a) && Received([a]) == DataOf(a)
  {
  }

  lemma TwoReads(v: Variant, c: Window, a: Recv, b: Recv)
    requires FitsWindow(c, a) && FitsWindow(OnData(v, c, a).conn, b)
    ensures Feasible(v, c, [a, b]) && Received([a, b]) == DataOf(a) + DataOf(b)
    ensures var o := OnData(v, c, a); var q := OnData(v, o.conn, b);
            Run(v, c, [a, b]) == Outcome(q.conn, o.delivered + q.delivered)
  {
    assert [a, b][1..] == [b];
    OneRead(v, OnData(v, c, a).conn, b);
  }

  lemma ThreeReads(v: Variant, c: Window, a: Recv, b: Recv, d: Recv)
    requires FitsWindow(c, a) && Feasible(v, OnData(v, c, a).conn, [b, d])
    ensures Feasible(v, c, [a, b, d])
    ensures var o := OnData(v, c, a); var q := Run(v, o.conn, [b, d]);
            Run(v, c, [a, b, d]) == Outcome(q.conn, o.delivered + q.delivered)
  {
  }

  // ---- The intended receiver

  /** Byte conservation over every run, whatever the bytes are and whichever reads fail. */
  lemma {:induction false} RunConserves(c: Window, rs: seq<Recv>)
    requires Feasible(Intended, c, rs)
    ensures var o := Run(Intended, c, rs);
            Flatten(o.delivered) + Pending(o.conn) == Pending(c) + Received(rs)
    decreases |rs|
  {
    if rs != [] {
      var o := OnData(Intended, c, rs[0]);
      IntendedConserves(c, rs[0]);
      RunConserves(o.conn, rs[1..]);
      var q := Run(Intended, o.conn, rs[1..]);
      FlattenAppend(o.delivered, q.delivered);
      Assoc(Flatten(o.delivered), Flatten(q.delivered), Pending(q.conn));
      Assoc(Flatten(o.delivered), Pending(o.conn), Received(rs[1..]));
      Assoc(Pending(c), DataOf(rs[0]), Received(rs[1..]));
    }
  }

  /** Segmentation does not matter: a run delivers what the loop finds in the whole stream at once. */
  lemma {:induction false} RunIsSplit(c: Window, rs: seq<Recv>)
    requires Feasible(Intended, c, rs)
    requires HeadersTerminate(Pending(c) + Received(rs)) && Incomplete(Pending(c))
    ensures var o, p := Run(Intended, c, rs), Split(Pending(c) + Received(rs), []);
            o.delivered == p.frames && Pending(o.conn) == p.rest
    decreases |rs|
  {
    if rs == [] {
      assert Pending(c) + Received(rs) == Pending(c);
      SplitShort(Pending(c), []);
    } else {
      var a, b := Pending(c) + DataOf(rs[0]), Received(rs[1..]);
      Assoc(Pending(c), DataOf(rs[0]), b);
      SplitAppend(a, b, []);
      var o := OnData(Intended, c, rs[0]);
      OneReadIsSplit(c, rs[0]);
      RunIsSplit(o.conn, rs[1..]);
    }
  }

  lemma OneReadIsSplit(c: Window, r: Recv)
    requires FitsWindow(c, r) && Incomplete(Pending(c))
    requires HeadersTerminate(Pending(c) + DataOf(r))
    ensures var o, p := OnData(Intended, c, r), Split(Pending(c) + DataOf(r), []);
            o.delivered == p.frames && Pending(o.conn) == p.rest
  {
    match r
    case Failed =>
      assert Pending(c) + [] == Pending(c);
      SplitShort(Pending(c), []);
    case Got(data) =>
      ReadIsSplit(c, data);
      SplitIgnoresStale(Pending(c) + data, Stale(c)[|data|..], []);
  }

  /** Any two ways to cut the same bytes into reads, with failed reads anywhere in between and even with
      different buffers, deliver the same messages and leave the same bytes pending. */
  lemma SegmentationIndependence(c: Window, rs: seq<Recv>, c': Window, rs': seq<Recv>)
    requires Feasible(Intended, c, rs) && Feasible(Intended, c', rs')
    requires Pending(c) == Pending(c') && Incomplete(Pending(c))
    requires Received(rs) == Received(rs') && HeadersTerminate(Pending(c) + Received(rs))
    ensures var o, o' := Run(Intended, c, rs), Run(Intended, c', rs');
            o.delivered == o'.delivered && Pending(o.conn) == Pending(o'.conn)
  {
    RunIsSplit(c, rs);
    RunIsSplit(c', rs');
  }

  /** Two reads against one. */
  lemma ChunkingIndependence(c: Window, a: seq<byte>, b: seq<byte>)
    requires Incomplete(Pending(c)) && HeadersTerminate(Pending(c) + (a + b))
    requires Feasible(Intended, c, [Got(a), Got(b)]) && Feasible(Intended, c, [Got(a + b)])
    ensures var two, one := Run(Intended, c, [Got(a), Got(b)]), OnData(Intended, c, Got(a + b));
            two.delivered == one.delivered && Pending(two.conn) == Pending(one.conn)
  {
    var o := OnData(Intended, c, Got(a));
    assert [Got(a), Got(b)][1..] == [Got(b)];
    TwoReads(Intended, c, Got(a), Got(b));
    OneRead(Intended, c, Got(a + b));
    SegmentationIndependence(c, [Got(a), Got(b)], c, [Got(a + b)]);
  }

  // ---- The code as written

  /** A run without a faulty call is a run of the intended receiver. */
  lemma {:induction false} FaultFreeRun(c: Window, rs: seq<Recv>)
    requires Feasible(AsWritten, c, rs) && FaultFree(c, rs)
    ensures Feasible(Intended, c, rs) && Run(AsWritten, c, rs) == Run(Intended, c, rs)
    decreases |rs|
  {
    if rs != [] {
      VariantsAgree(c, rs[0]);
      FaultFreeRun(OnData(AsWritten, c, rs[0]).conn, rs[1..]);
    }
  }

  function Total(o: Outcome): nat {
    |Flatten(o.delivered)| + o.conn.pos
  }

  /** Without failed reads the code never loses bytes, it only invents them. */
  lemma {:induction false} NeverFewerBytes(c: Window, rs: seq<Recv>)
    requires Feasible(AsWritten, c, rs) && NoFailures(rs)
    ensures var n := Total(Run(AsWritten, c, rs));
            && n >= c.pos + |Received(rs)|
            && (n == c.pos + |Received(rs)| <==> FaultFree(c, rs))
    decreases |rs|
  {
    if rs != [] {
      var r := rs[0];
      var o := OnData(AsWritten, c, r);
      NeverFewerBytes(o.conn, rs[1..]);
      FlattenAppend(o.delivered, Run(AsWritten, o.conn, rs[1..]).delivered);
      VariantsAgree(c, r);
      IntendedConserves(c, r);
      var i := OnData(Intended, c, r);
      assert |Flatten(i.delivered)| + i.conn.pos == c.pos + |r.data| by {
        assert |Flatten(i.delivered) + Pending(i.conn)| == |Pending(c) + r.data|;
      }
      if Faulty(c, r) {
        FragmentFault(c, r.data);
      }
    }
  }

  /** A run without failed reads conserves bytes exactly when no header fragment ever follows a frame
      completed in the same call. */
  lemma AsWrittenRunConserves(c: Window, rs: seq<Recv>)
    requires Feasible(AsWritten, c, rs) && NoFailures(rs)
    ensures var o := Run(AsWritten, c, rs);
            Flatten(o.delivered) + Pending(o.conn) == Pending(c) + Received(rs) <==> FaultFree(c, rs)
  {
    NeverFewerBytes(c, rs);
    var o := Run(AsWritten, c, rs);
    if FaultFree(c, rs) {
      FaultFreeRun(c, rs);
      RunConserves(c, rs);
    } else {
      assert |Flatten(o.delivered) + Pending(o.conn)| != |Pending(c) + Received(rs)|;
    }
  }

  /** Conservation after every single read of the series, failed ones included. */
  ghost predicate AlwaysConserves(c: Window, rs: seq<Recv>)
    requires Feasible(AsWritten, c, rs)
    decreases |rs|
  {
    rs == [] ||
    (var o := OnData(AsWritten, c, rs[0]);
     && Flatten(o.delivered) + Pending(o.conn) == Pending(c) + DataOf(rs[0])
     && AlwaysConserves(o.conn, rs[1..]))
  }

  /** Over every series the code conserves bytes throughout exactly when no call is faulty. */
  lemma {:induction false} AlwaysConservesExactly(c: Window, rs: seq<Recv>)
    requires Feasible(AsWritten, c, rs)
    ensures AlwaysConserves(c, rs) <==> FaultFree(c, rs)
    decreases |rs|
  {
    if rs != [] {
      AsWrittenConserves(c, rs[0]);
      AlwaysConservesExactly(OnData(AsWritten, c, rs[0]).conn, rs[1..]);
    }
  }

  // ---- Capacity

  /** Failed reads are no-ops for the intended receiver; the code as written loses pending bytes by them. */
  predicate NoHarmfulFailures(v: Variant, rs: seq<Recv>) {
    v.AsWritten? ==> NoFailures(rs)
  }

  /** A frame longer than the buffer blocks the connection for good, in both variants: while the stream
      goes on with that frame, no read ever delivers anything and the buffer just fills up. */
  lemma {:induction false} OversizedFrameBlocks(v: Variant, c: Window, rs: seq<Recv>, f: Frame, z: seq<byte>)
    requires Feasible(v, c, rs) && NoHarmfulFailures(v, rs)
    requires Sound(f) && |f.Bytes()| > |c.buf|
    requires Pending(c) + Received(rs) <= f.Bytes() + z
    ensures var o := Run(v, c, rs);
            o.delivered == [] && Pending(o.conn) == Pending(c) + Received(rs) < f.Bytes()
    decreases |rs|
  {
    if rs == [] {
      assert Pending(c) + [] == Pending(c);
      ShorterPrefix(Pending(c), f.Bytes(), z);
    } else if rs[0].Failed? {
      assert Received(rs) == Received(rs[1..]);
      OversizedFrameBlocks(v, c, rs[1..], f, z);
    } else {
      OversizedRead(v, c, rs[0].data, Received(rs[1..]), f, z);
      OversizedFrameBlocks(v, OnData(v, c, rs[0]).conn, rs[1..], f, z);
    }
  }

  lemma OversizedRead(v: Variant, c: Window, data: seq<byte>, more: seq<byte>, f: Frame, z: seq<byte>)
    requires |data| <= |c.buf| - c.pos && Sound(f) && |f.Bytes()| > |c.buf|
    requires Pending(c) + (data + more) <= f.Bytes() + z
    ensures var o := OnData(v, c, Got(data));
            && o.delivered == [] && Pending(o.conn) == Pending(c) + data
            && Pending(o.conn) + more == Pending(c) + (data + more)
  {
    var p := Pending(c) + data;
    Assoc(Pending(c), data, more);
    ShorterPrefix(p, f.Bytes(), z);
    StrictPrefixIncomplete(f, p);
    IncompleteRead(v, c, data);
  }

  lemma ShorterPrefix(p: seq<byte>, s: seq<byte>, z: seq<byte>)
    requires p <= s + z && |p| < |s|
    ensures p < s
  {
  }

  lemma IncompleteLoop(v: Variant, buf: seq<byte>, n: nat)
    requires n <= |buf| && Incomplete(buf[..n])
    ensures var o := AfterRecv(v, buf, n); o.delivered == [] && Pending(o.conn) == buf[..n]
  {
    SplitShort(buf[..n], buf[n..]);
  }

  /** A read that completes no frame only appends. */
  lemma IncompleteRead(v: Variant, c: Window, data: seq<byte>)
    requires |data| <= |c.buf| - c.pos && Incomplete(Pending(c) + data)
    ensures var o := OnData(v, c, Got(data));
            o.delivered == [] && Pending(o.conn) == Pending(c) + data
  {
    StoredSlices(c, data);
    IncompleteLoop(v, Stored(c, data), c.pos + |data|);
  }

  /** The buffer is full of an incomplete frame: only empty and failed reads remain, and they change nothing. */
  lemma {:induction false} FullBufferIsFixpoint(v: Variant, c: Window, rs: seq<Recv>)
    requires c.pos == |c.buf| && Incomplete(Pending(c))
    requires Feasible(v, c, rs) && NoHarmfulFailures(v, rs)
    ensures Run(v, c, rs) == Outcome(c, []) && Received(rs) == []
    decreases |rs|
  {
    if rs != [] {
      if rs[0].Got? {
        assert rs[0] == Got([]);
        SplitShort(Pending(c), Stale(c));
        EmptyReadIsNoOp(v, c);
      }
      FullBufferIsFixpoint(v, c, rs[1..]);
    }
  }

  lemma WholeFrameInOneRead(v: Variant, c: Window, f: Frame)
    requires c.pos == 0 && Sound(f) && |f.Bytes()| <= |c.buf|
    ensures OnData(v, c, Got(f.Bytes())).delivered == [f]
  {
    var s := f.Bytes();
    StoredSlices(c, s);
    assert Pending(c) + s == s + [];
    SoundSplit(f, [], Stale(c)[|s|..]);
    assert [f] + [] == [f];
  }

  predicate Delivers(v: Variant, c: Window, rs: seq<Recv>, f: Frame) {
    && Feasible(v, c, rs)
    && NoHarmfulFailures(v, rs)
    && Received(rs) == f.Bytes()
    && Run(v, c, rs).delivered == [f]
  }

  /** The capacity threshold is sharp: some way to read the frame delivers it exactly when the header and
      the payload together fit the buffer. */
  lemma CapacityThreshold(v: Variant, c: Window, f: Frame)
    requires c.pos == 0 && Sound(f)
    ensures |f.Bytes()| <= |c.buf| <==> exists rs :: Delivers(v, c, rs, f)
  {
    var s := f.Bytes();
    if |s| <= |c.buf| {
      var rs := [Got(s)];
      WholeFrameInOneRead(v, c, f);
      OneRead(v, c, Got(s));
      assert Delivers(v, c, rs, f);
    } else if rs :| Delivers(v, c, rs, f) {
      assert Pending(c) + Received(rs) == s == s + [];
      OversizedFrameBlocks(v, c, rs, f, []);
    }
  }
}
