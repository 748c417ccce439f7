/** Concrete runs in which the code as written departs from the intended receiver. */
module Divergence {
  import opened Decimal
  import opened WireHeader
  import opened Framing
  import opened Reassembly
  import opened ReadRuns

  const EMPTY: Window := Conn(Zeros(32), 0)

  /** The header of a message of `n` bytes, sent from a zeroed header array. */
  function SmallHeader(n: nat): (h: seq<byte>)
    requires n < 10
    ensures h == [ZERO + n] + Zeros(7)
  {
    Header(Zeros(HEADER_LEN), n)
  }

  /** An empty message and the message "A", and the first 9 bytes read at once: the fragment of the second
      header comes right after a completed frame. */
  const FIRST_READ: seq<byte> := SmallHeader(0) + [ZERO + 1]
  const SECOND_READ: seq<byte> := Zeros(7) + [65]

  lemma MsgSizeOfSmallHeader(n: nat, x: seq<byte>)
    requires n < 10
    ensures Terminates(SmallHeader(n)) && MsgSize(SmallHeader(n) + x) == n
  {
    HeaderRoundTrip(Zeros(HEADER_LEN), n, x);
    AnnouncedSize(n);
  }

  const MIXED: Window := Conn(SmallHeader(1) + [ZERO + 1] + Zeros(23), 9)

  const FIRST_BUFFER: seq<byte> := FIRST_READ + Zeros(23)

  lemma FirstReadBuffer()
    ensures Stored(EMPTY, FIRST_READ) == FIRST_BUFFER
    ensures FIRST_BUFFER[..9] == FIRST_READ
    ensures [ZERO + 1] + FIRST_BUFFER[1..] == MIXED.buf
  {
    assert FIRST_READ[1..] == Zeros(7) + [ZERO + 1];
  }

  lemma FirstSplit(t: seq<byte>)
    ensures Split(FIRST_READ, t) == Parsed([Frame(SmallHeader(0), [])], [ZERO + 1])
  {
    var f, x := Frame(SmallHeader(0), []), [ZERO + 1];
    MsgSizeOfSmallHeader(0, []);
    assert SmallHeader(0) + [] == SmallHeader(0);
    assert FIRST_READ == f.Bytes() + x;
    SoundSplit(f, x, t);
    assert [f] + [] == [f];
  }

  lemma FirstRead(v: Variant)
    ensures var o := OnData(v, EMPTY, Got(FIRST_READ));
            && o.delivered == [Frame(SmallHeader(0), [])]
            && o.conn == if v.Intended? then MIXED.(pos := 1) else MIXED
  {
    FirstReadBuffer();
    FirstSplit(FIRST_BUFFER[9..]);
    RestStays(v, FIRST_BUFFER, 9, Parsed([Frame(SmallHeader(0), [])], [ZERO + 1]));
  }

  /** The code as written, on the second read: the leftover digit of the first header is taken for the
      payload, and the rest of the real message for one more header. */
  lemma SecondReadAsWritten()
    ensures OnData(AsWritten, MIXED, Got(SECOND_READ)).delivered
            == [Frame(SmallHeader(1), [ZERO + 1]), Frame(SECOND_READ, [])]
  {
    StoredSlices(MIXED, SECOND_READ);
    var t := Stale(MIXED)[8..];
    var f, g := Frame(SmallHeader(1), [ZERO + 1]), Frame(SECOND_READ, []);
    MsgSizeOfSmallHeader(1, []);
    assert SmallHeader(1) + [] == SmallHeader(1);
    assert !IsSpace(SECOND_READ[0]) && !IsDigit(SECOND_READ[0]) && !Signed(SECOND_READ);
    assert Digits(SECOND_READ)[..0] == [];
    assert Strtol(SECOND_READ) == 0;
    assert Sound(g);
    assert Pending(MIXED) + SECOND_READ == f.Bytes() + SECOND_READ;
    assert SECOND_READ == g.Bytes() + [];
    SoundSplit(g, [], t);
    SoundSplit(f, SECOND_READ, t);
    assert [f] + ([g] + []) == [f, g];
  }

  lemma SecondReadIntended()
    ensures OnData(Intended, MIXED.(pos := 1), Got(SECOND_READ)).delivered == [Frame(SmallHeader(1), [65])]
  {
    var c := MIXED.(pos := 1);
    StoredSlices(c, SECOND_READ);
    var f := Frame(SmallHeader(1), [65]);
    MsgSizeOfSmallHeader(1, []);
    assert SmallHeader(1) + [] == SmallHeader(1);
    assert Pending(c) == [ZERO + 1];
    assert Pending(c) + SECOND_READ == f.Bytes() + [];
    SoundSplit(f, [], Stale(c)[8..]);
    assert [f] + [] == [f];
  }

  /** The first divergence: an empty message and the message "A" in two reads. The intended receiver
      delivers both; the code delivers the empty message, then "1", then another empty message. */
  lemma FragmentDivergence()
    ensures var rs := [Got(FIRST_READ), Got(SECOND_READ)];
            && Feasible(AsWritten, EMPTY, rs) && Feasible(Intended, EMPTY, rs)
            && Received(rs) == Flatten([Frame(SmallHeader(0), []), Frame(SmallHeader(1), [65])])
            && Run(Intended, EMPTY, rs).delivered == [Frame(SmallHeader(0), []), Frame(SmallHeader(1), [65])]
            && Run(AsWritten, EMPTY, rs).delivered
               == [Frame(SmallHeader(0), []), Frame(SmallHeader(1), [ZERO + 1]), Frame(SECOND_READ, [])]
  {
    FirstRead(AsWritten);
    FirstRead(Intended);
    SecondReadAsWritten();
    SecondReadIntended();
    TwoReads(AsWritten, EMPTY, Got(FIRST_READ), Got(SECOND_READ));
    TwoReads(Intended, EMPTY, Got(FIRST_READ), Got(SECOND_READ));
    TwoMessages();
  }

  lemma TwoMessages()
    ensures FIRST_READ + SECOND_READ == Flatten([Frame(SmallHeader(0), []), Frame(SmallHeader(1), [65])])
  {
  }

  /** The second divergence: the message "AB" arrives as header and "A", then a read fails, then "B" comes.
      The intended receiver delivers "AB"; the code has dropped the "A" and delivers nothing. */
  lemma FailedReadDivergence()
    ensures var rs := [Got(SmallHeader(2) + [65]), Failed, Got([66])];
            && Feasible(AsWritten, EMPTY, rs) && Feasible(Intended, EMPTY, rs)
            && Run(Intended, EMPTY, rs).delivered == [Frame(SmallHeader(2), [65, 66])]
            && Run(AsWritten, EMPTY, rs).delivered == []
            && Pending(Run(AsWritten, EMPTY, rs).conn) == SmallHeader(2) + [66]
  {
    var a := SmallHeader(2) + [65];
    PartOfTwoBytes(65);
    PartOfTwoBytes(66);
    assert Pending(EMPTY) + a == a;
    IncompleteRead(AsWritten, EMPTY, a);
    IncompleteRead(Intended, EMPTY, a);
    AfterHeaderAndByteAsWritten(OnData(AsWritten, EMPTY, Got(a)).conn);
    AfterHeaderAndByteIntended(OnData(Intended, EMPTY, Got(a)).conn);
    ThreeReads(AsWritten, EMPTY, Got(a), Failed, Got([66]));
    ThreeReads(Intended, EMPTY, Got(a), Failed, Got([66]));
  }

  lemma PartOfTwoBytes(b: byte)
    ensures Incomplete(SmallHeader(2) + [b])
  {
    MsgSizeOfSmallHeader(2, []);
    assert SmallHeader(2) + [] == SmallHeader(2);
    var f := Frame(SmallHeader(2), [b, b]);
    assert f.Bytes() == SmallHeader(2) + [b] + [b];
    StrictPrefixIncomplete(f, SmallHeader(2) + [b]);
  }

  lemma AfterHeaderAndByteAsWritten(c: Window)
    requires Pending(c) == SmallHeader(2) + [65] && |c.buf| >= 9
    ensures Feasible(AsWritten, c, [Failed, Got([66])])
    ensures var o := Run(AsWritten, c, [Failed, Got([66])]);
            o.delivered == [] && Pending(o.conn) == SmallHeader(2) + [66]
  {
    PartOfTwoBytes(65);
    PartOfTwoBytes(66);
    assert c.pos == |Pending(c)| == 9;
    FailedReadDropsLastByte(c);
    var e := c.(pos := 8);
    assert Pending(e) == Pending(c)[..8] == SmallHeader(2);
    IncompleteRead(AsWritten, e, [66]);
    TwoReads(AsWritten, c, Failed, Got([66]));
  }

  lemma AfterHeaderAndByteIntended(d: Window)
    requires Pending(d) == SmallHeader(2) + [65] && |d.buf| >= 10
    ensures Feasible(Intended, d, [Failed, Got([66])])
    ensures Run(Intended, d, [Failed, Got([66])]).delivered == [Frame(SmallHeader(2), [65, 66])]
  {
    assert d.pos == |Pending(d)| == 9;
    MsgSizeOfSmallHeader(2, []);
    assert SmallHeader(2) + [] == SmallHeader(2);
    var f := Frame(SmallHeader(2), [65, 66]);
    ReadIsSplit(d, [66]);
    assert Pending(d) + [66] == f.Bytes() + [];
    SoundSplit(f, [], Stale(d)[1..]);
    assert [] + ([f] + []) == [f];
    TwoReads(Intended, d, Failed, Got([66]));
  }
}
