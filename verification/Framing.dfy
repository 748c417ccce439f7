/** Frames on the byte stream, and the reassembly loop as a function of the bytes it looks at. */
module Framing {
  import opened Decimal
  import opened WireHeader

  /** One message on the wire: the 8 header bytes and the payload. */
  datatype Frame = Frame(header: seq<byte>, payload: seq<byte>) {
    function Bytes(): seq<byte> {
      header + payload
    }
  }

  function Flatten(fs: seq<Frame>): seq<byte> {
    if fs == [] then [] else fs[0].Bytes() + Flatten(fs[1..])
  }

  function Payloads(fs: seq<Frame>): (ps: seq<seq<byte>>)
    ensures |ps| == |fs| && forall i | 0 <= i < |fs| :: ps[i] == fs[i].payload
  {
    seq(|fs|, i requires 0 <= i < |fs| => fs[i].payload)
  }

  /** What send_data puts on the wire for one message. */
  function Encode(init: seq<byte>, payload: seq<byte>): Frame
    requires |init| == HEADER_LEN
  {
    Frame(Header(init, |payload|), payload)
  }

  /** A frame a receiver can recognise by itself: its header ends within its 8 bytes and is right. */
  predicate Sound(f: Frame) {
    && |f.header| == HEADER_LEN
    && Terminates(f.header)
    && MsgSize(f.header) == |f.payload|
  }

  predicate AllSound(fs: seq<Frame>) {
    forall i | 0 <= i < |fs| :: Sound(fs[i])
  }

  /** Bytes in which no frame is complete yet, and never because of what may follow the header. */
  predicate Incomplete(s: seq<byte>) {
    |s| < HEADER_LEN
    || (Terminates(s[..HEADER_LEN]) && |s| - HEADER_LEN < MsgSize(s[..HEADER_LEN]))
  }

  /** Every header the reassembly loop meets in `s` ends within its 8 bytes. */
  predicate HeadersTerminate(s: seq<byte>)
    decreases |s|
  {
    |s| < HEADER_LEN
    || (var k := MsgSize(s[..HEADER_LEN]);
        Terminates(s[..HEADER_LEN])
        && (|s| - HEADER_LEN < k || HeadersTerminate(s[HEADER_LEN + k..])))
  }

  /** Complete frames, and the bytes after the last one. */
  datatype Parsed = Parsed(frames: seq<Frame>, rest: seq<byte>)

  /** The loop of on_data over the received bytes `s`. strtol is not told where they end, so `stale`,
      the old contents of the buffer behind them, is part of what it reads. */
  function Split(s: seq<byte>, stale: seq<byte>): (p: Parsed)
    ensures |p.rest| <= |s|
    decreases |s|
  {
    if |s| < HEADER_LEN then Parsed([], s)
    else
      var k := MsgSize(s + stale);
      if |s| - HEADER_LEN < k then Parsed([], s)
      else
        var p := Split(s[HEADER_LEN + k..], stale);
        Parsed([Frame(s[..HEADER_LEN], s[HEADER_LEN..HEADER_LEN + k])] + p.frames, p.rest)
  }

  // ---- Sequences of frames

  lemma {:induction false} FlattenAppend(a: seq<Frame>, b: seq<Frame>)
    ensures Flatten(a + b) == Flatten(a) + Flatten(b)
  {
    if a == [] {
      assert a + b == b;
    } else {
      assert (a + b)[1..] == a[1..] + b;
      FlattenAppend(a[1..], b);
    }
  }

  lemma FlattenOne(f: Frame)
    ensures Flatten([f]) == f.Bytes()
  {
  }

  lemma Assoc<T>(a: seq<T>, b: seq<T>, c: seq<T>)
    ensures a + b + c == a + (b + c)
  {
  }

  lemma FlattenCons(f: Frame, fs: seq<Frame>)
    ensures Flatten([f] + fs) == f.Bytes() + Flatten(fs)
  {
  }

  lemma FlattenSnoc(fs: seq<Frame>, f: Frame)
    ensures Flatten(fs + [f]) == Flatten(fs) + f.Bytes()
  {
    FlattenAppend(fs, [f]);
    FlattenOne(f);
  }

  /** One turn of the loop, on a complete frame. */
  lemma SplitHead(f: Frame, x: seq<byte>, t: seq<byte>)
    requires |f.header| == HEADER_LEN && MsgSize(f.Bytes() + x + t) == |f.payload|
    ensures Split(f.Bytes() + x, t) == Parsed([f] + Split(x, t).frames, Split(x, t).rest)
  {
    var s := f.Bytes() + x;
    var n := HEADER_LEN + |f.payload|;
    assert s[..HEADER_LEN] == f.header;
    assert s[HEADER_LEN..n] == f.payload;
    assert s[n..] == x;
  }

  /** ... and on one that is not complete, by the size the header announces with what lies behind it. */
  lemma SplitUnfinished(s: seq<byte>, t: seq<byte>)
    requires |s| < HEADER_LEN || |s| < HEADER_LEN + MsgSize(s + t)
    ensures Split(s, t) == Parsed([], s)
  {
  }

  /** The complete frame at the start of `s`, when there is one. */
  function Head(s: seq<byte>, t: seq<byte>): (f: Frame)
    requires HEADER_LEN <= |s| && MsgSize(s + t) <= |s| - HEADER_LEN
    ensures |f.header| == HEADER_LEN && |f.payload| == MsgSize(s + t)
    ensures s == f.Bytes() + s[HEADER_LEN + |f.payload|..]
  {
    Frame(s[..HEADER_LEN], s[HEADER_LEN..HEADER_LEN + MsgSize(s + t)])
  }

  /** send_data's frames are sound exactly when the size has at most seven digits. */
  lemma EncodeSound(init: seq<byte>, payload: seq<byte>)
    requires |init| == HEADER_LEN
    ensures Sound(Encode(init, payload)) <==> |payload| < SIZE_LIMIT
  {
    HeaderRoundTrip(init, |payload|, []);
    assert Header(init, |payload|) + [] == Header(init, |payload|);
  }

  // ---- Arbitrary input: nothing is lost, invented, reordered or overlapped

  /** The delivered frames and the rest are consecutive slices of the input, whatever the headers say. */
  lemma {:induction false} SplitConserves(s: seq<byte>, stale: seq<byte>)
    ensures var p := Split(s, stale);
            && Flatten(p.frames) + p.rest == s
            && forall i | 0 <= i < |p.frames| :: |p.frames[i].header| == HEADER_LEN
    decreases |s|
  {
    if |s| >= HEADER_LEN && MsgSize(s + stale) <= |s| - HEADER_LEN {
      var f := Head(s, stale);
      var x := s[HEADER_LEN + |f.payload|..];
      SplitHead(f, x, stale);
      SplitConserves(x, stale);
      var q := Split(x, stale);
      FlattenCons(f, q.frames);
      Assoc(f.Bytes(), Flatten(q.frames), q.rest);
    }
  }

  /** What the loop leaves behind, it leaves behind again. */
  lemma {:induction false} SplitRestIdle(s: seq<byte>, stale: seq<byte>)
    ensures var r := Split(s, stale).rest; Split(r, stale) == Parsed([], r)
    decreases |s|
  {
    if |s| >= HEADER_LEN {
      var k := MsgSize(s + stale);
      if |s| - HEADER_LEN >= k {
        SplitRestIdle(s[HEADER_LEN + k..], stale);
      }
    }
  }

  // ---- Streams whose headers terminate

  lemma ParseHeader(s: seq<byte>, x: seq<byte>)
    requires |s| >= HEADER_LEN && Terminates(s[..HEADER_LEN])
    ensures MsgSize(s + x) == MsgSize(s[..HEADER_LEN])
  {
    assert s + x == s[..HEADER_LEN] + (s[HEADER_LEN..] + x);
    TerminatedIgnoresRest(s[..HEADER_LEN], s[HEADER_LEN..] + x);
  }

  /** Old buffer contents behind the received bytes make no difference. */
  lemma {:induction false} SplitIgnoresStale(s: seq<byte>, t: seq<byte>, u: seq<byte>)
    requires HeadersTerminate(s)
    ensures Split(s, t) == Split(s, u)
    decreases |s|
  {
    if |s| >= HEADER_LEN {
      ParseHeader(s, t);
      ParseHeader(s, u);
      var k := MsgSize(s[..HEADER_LEN]);
      if |s| - HEADER_LEN >= k {
        SplitIgnoresStale(s[HEADER_LEN + k..], t, u);
      }
    }
  }

  lemma HeadersTerminateHead(f: Frame, x: seq<byte>)
    requires |f.header| == HEADER_LEN && MsgSize(f.header) == |f.payload|
    ensures HeadersTerminate(f.Bytes() + x) <==> Terminates(f.header) && HeadersTerminate(x)
  {
    var s := f.Bytes() + x;
    assert s[..HEADER_LEN] == f.header;
    assert s[HEADER_LEN + |f.payload|..] == x;
  }

  /** No complete frame in `a`, whatever follows it. */
  lemma SplitShort(a: seq<byte>, t: seq<byte>)
    requires Incomplete(a)
    ensures Split(a, t) == Parsed([], a) && HeadersTerminate(a)
  {
    if |a| >= HEADER_LEN {
      ParseHeader(a, t);
    }
  }

  /** A complete frame at the front is found there whatever follows. */
  lemma HeadOfBoth(a: seq<byte>, b: seq<byte>, t: seq<byte>) returns (f: Frame, x: seq<byte>)
    requires HeadersTerminate(a + b) && !Incomplete(a)
    ensures Sound(f) && a == f.Bytes() + x && a + b == f.Bytes() + (x + b)
    ensures HeadersTerminate(x + b) && (HeadersTerminate(x) ==> HeadersTerminate(a))
  {
    assert (a + b)[..HEADER_LEN] == a[..HEADER_LEN];
    ParseHeader(a, t);
    f := Head(a, t);
    x := a[HEADER_LEN + |f.payload|..];
    Assoc(f.Bytes(), x, b);
    HeadersTerminateHead(f, x);
    HeadersTerminateHead(f, x + b);
  }

  lemma SplitAppendShort(a: seq<byte>, b: seq<byte>, t: seq<byte>)
    requires Incomplete(a)
    ensures Split(a, t) == Parsed([], a) && HeadersTerminate(a)
    ensures Split(a + b, t) == Parsed([] + Split(a + b, t).frames, Split(a + b, t).rest)
  {
    SplitShort(a, t);
  }

  /** Chunking independence of the loop: reading `a` first and `b` later gives the same frames and the
      same rest as reading both at once, and the rest of `a` followed by `b` still has good headers. */
  lemma {:induction false} SplitAppend(a: seq<byte>, b: seq<byte>, t: seq<byte>)
    requires HeadersTerminate(a + b)
    ensures HeadersTerminate(a) && Incomplete(Split(a, t).rest)
    ensures HeadersTerminate(Split(a, t).rest + b)
    ensures var p := Split(a, t); var q := Split(p.rest + b, t);
            Split(a + b, t) == Parsed(p.frames + q.frames, q.rest)
    decreases |a|
  {
    if Incomplete(a) {
      SplitAppendShort(a, b, t);
    } else {
      var f, x := HeadOfBoth(a, b, t);
      SplitAppend(x, b, t);
      SoundSplit(f, x, t);
      SoundSplit(f, x + b, t);
      var q := Split(Split(a, t).rest + b, t);
      Assoc([f], Split(x, t).frames, q.frames);
    }
  }

  // ---- Streams of sound frames

  lemma SoundSplit(f: Frame, x: seq<byte>, t: seq<byte>)
    requires Sound(f)
    ensures Split(f.Bytes() + x, t) == Parsed([f] + Split(x, t).frames, Split(x, t).rest)
  {
    assert f.Bytes() + x + t == f.header + (f.payload + x + t);
    TerminatedIgnoresRest(f.header, f.payload + x + t);
    SplitHead(f, x, t);
  }

  /** Every strict prefix of a frame is incomplete. */
  lemma StrictPrefixIncomplete(f: Frame, p: seq<byte>)
    requires Sound(f) && p < f.Bytes()
    ensures Incomplete(p)
  {
    if |p| >= HEADER_LEN {
      assert p[..HEADER_LEN] == f.Bytes()[..HEADER_LEN] == f.header;
    }
  }

  /** No proper prefix of a frame is itself a frame. */
  lemma PrefixFree(f: Frame, g: Frame)
    requires Sound(f) && Sound(g) && g.Bytes() <= f.Bytes()
    ensures f == g
  {
    assert g.header == g.Bytes()[..HEADER_LEN] == f.Bytes()[..HEADER_LEN] == f.header;
    assert g.payload == g.Bytes()[HEADER_LEN..] == f.Bytes()[HEADER_LEN..] == f.payload;
  }

  lemma PrefixIncomplete(p: seq<byte>, s: seq<byte>)
    requires Incomplete(s) && p <= s
    ensures Incomplete(p)
  {
    if |p| >= HEADER_LEN {
      assert p[..HEADER_LEN] == s[..HEADER_LEN];
    }
  }

  /** A cut of a stream of sound frames (the last one possibly unfinished) into `p`, already read, and
      `more`, not yet read. The loop over `p` finds exactly the frames that lie wholly inside `p`, and
      leaves the beginning of the next one. */
  lemma {:induction false} SplitStream(p: seq<byte>, more: seq<byte>, fs: seq<Frame>, tail: seq<byte>, t: seq<byte>)
    requires AllSound(fs) && Incomplete(tail)
    requires p + more == Flatten(fs) + tail
    ensures var q := Split(p, t); var k := |q.frames|;
            && k <= |fs| && q.frames == fs[..k]
            && q.rest + more == Flatten(fs[k..]) + tail
            && Incomplete(q.rest)
            && (k < |fs| ==> q.rest < fs[k].Bytes())
            && (k == |fs| ==> q.rest <= tail)
    decreases |fs|
  {
    if fs == [] {
      assert p <= p + more == tail;
      PrefixIncomplete(p, tail);
      SplitShort(p, t);
    } else {
      var f, s' := fs[0], Flatten(fs[1..]) + tail;
      Assoc(f.Bytes(), Flatten(fs[1..]), tail);
      if |p| < |f.Bytes()| {
        PrefixOfLeft(p, more, f.Bytes(), s');
        StrictPrefixIncomplete(f, p);
        SplitShort(p, t);
        assert fs[0..] == fs;
      } else {
        var x := p[|f.Bytes()|..];
        PrefixOfLeft(f.Bytes(), s', p, more);
        assert p == f.Bytes() + x && x + more == s';
        SoundSplit(f, x, t);
        SplitStream(x, more, fs[1..], tail, t);
        ConsSlices(fs, |Split(x, t).frames|);
      }
    }
  }

  lemma ConsSlices<T>(s: seq<T>, k: nat)
    requires k < |s|
    ensures [s[0]] + s[1..][..k] == s[..1 + k] && s[1..][k..] == s[1 + k..]
  {
  }

  /** Two cuts of the same string: the shorter first part is a prefix of the longer one. */
  lemma PrefixOfLeft(a: seq<byte>, a': seq<byte>, b: seq<byte>, b': seq<byte>)
    requires a + a' == b + b' && |a| <= |b|
    ensures a <= b && a' == b[|a|..] + b'
  {
    assert a == (a + a')[..|a|] == (b + b')[..|a|] == b[..|a|];
    assert a' == (a + a')[|a|..] == (b + b')[|a|..];
  }

  /** Decoding inverts encoding, also with an unfinished frame at the end. */
  lemma {:induction false} SplitFlatten(fs: seq<Frame>, tail: seq<byte>, t: seq<byte>)
    requires AllSound(fs) && Incomplete(tail)
    ensures Split(Flatten(fs) + tail, t) == Parsed(fs, tail)
  {
    if fs == [] {
      assert Flatten(fs) + tail == tail;
      SplitShort(tail, t);
    } else {
      var x := Flatten(fs[1..]) + tail;
      assert Flatten(fs) + tail == fs[0].Bytes() + x;
      SoundSplit(fs[0], x, t);
      SplitFlatten(fs[1..], tail, t);
    }
  }

  /** Unique decodability: a byte stream is the encoding of at most one sequence of messages. */
  lemma UniqueDecoding(fs: seq<Frame>, gs: seq<Frame>)
    requires AllSound(fs) && AllSound(gs)
    requires Flatten(fs) == Flatten(gs)
    ensures fs == gs
  {
    assert Flatten(fs) + [] == Flatten(fs) && Flatten(gs) + [] == Flatten(gs);
    SplitFlatten(fs, [], []);
    SplitFlatten(gs, [], []);
  }

  /** The streams the receiver theorems are about: all headers in a stream of sound frames, whatever part of a
      next one follows, end within their 8 bytes. */
  lemma {:induction false} StreamsTerminate(fs: seq<Frame>, tail: seq<byte>)
    requires AllSound(fs) && Incomplete(tail)
    ensures HeadersTerminate(Flatten(fs) + tail)
    decreases |fs|
  {
    if fs == [] {
      assert Flatten(fs) + tail == tail;
    } else {
      Assoc(fs[0].Bytes(), Flatten(fs[1..]), tail);
      StreamsTerminate(fs[1..], tail);
      HeadersTerminateHead(fs[0], Flatten(fs[1..]) + tail);
    }
  }

  /** One message of any size, as the bytes send_data writes for it: it comes out whole, and nothing else does,
      exactly below 10^7 bytes; beyond that the first message out is a strictly shorter beginning of it. */
  lemma OneMessage(init: seq<byte>, payload: seq<byte>, t: seq<byte>)
    requires |init| == HEADER_LEN
    ensures Encode(init, payload).Bytes() == Header(init, |payload|) + payload
    ensures var p := Split(Header(init, |payload|) + payload, t);
            && (Payloads(p.frames) == [payload] && p.rest == [] <==> |payload| < SIZE_LIMIT)
            && (|payload| >= SIZE_LIMIT ==>
                  && p.frames != [] && p.frames[0].payload < payload
                  && |p.frames[0].payload| == Announced(|payload|))
  {
    var h := Header(init, |payload|);
    AnnouncedSize(|payload|);
    var k := Announced(|payload|);
    var g, x := Frame(h, payload[..k]), payload[k..];
    assert g.Bytes() + x == h + payload;
    assert g.Bytes() + x + t == h + (payload + t);
    HeaderRoundTrip(init, |payload|, payload + t);
    SplitHead(g, x, t);
    if k == |payload| {
      assert [g] + [] == [g] && payload[..k] == payload;
    }
  }
}
