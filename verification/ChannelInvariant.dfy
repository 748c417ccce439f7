/** What every step keeps on one connection. */
module ChannelInvariant {
  import opened Decimal
  import opened WireHeader
  import opened Framing
  import opened Reassembly
  import opened SendProtocol

  /** The state of the mutex of one descriptor, with the progress of its holder. */
  datatype Lock = Free | Held(tid: Tid, headerOut: bool, frame: Frame)

  /** The frames completely written. The last message of the order belongs to the lock holder. */
  function Whole(ch: Channel, lock: Lock): seq<Frame> {
    var fs := Frames(ch.order);
    if lock.Held? && fs != [] then fs[..|fs| - 1] else fs
  }

  /** What the lock holder has written of its message so far: nothing, or exactly the header. */
  function Partial(lock: Lock): seq<byte> {
    if lock.Held? && lock.headerOut then lock.frame.header else []
  }

  /** For the receiver an empty message is complete as soon as its header is there. */
  function Complete(ch: Channel, lock: Lock): seq<Frame> {
    if lock.Held? && lock.headerOut && lock.frame.payload == [] then Frames(ch.order) else Whole(ch, lock)
  }

  function Unfinished(lock: Lock): seq<byte> {
    if lock.Held? && lock.headerOut && lock.frame.payload != [] then lock.frame.header else []
  }

  ghost predicate LockFits(ch: Channel, lock: Lock) {
    lock.Held? ==> |ch.order| > 0 && ch.order[|ch.order| - 1] == Sent(lock.tid, lock.frame)
  }

  /** Byte conservation: what was written is delivered, pending at the receiver or in flight. */
  ghost predicate Balanced(ch: Channel) {
    ch.written == Flatten(ch.delivered) + Pending(ch.conn) + ch.inflight
  }

  ghost predicate ChannelOk(ch: Channel, lock: Lock) {
    && AllSound(Frames(ch.order))
    && LockFits(ch, lock)
    && ch.written == Flatten(Complete(ch, lock)) + Unfinished(lock)
    && Balanced(ch)
    && ch.delivered <= Complete(ch, lock)
    && Incomplete(Pending(ch.conn))
  }

  lemma UnfinishedIncomplete(ch: Channel, lock: Lock)
    requires ChannelOk(ch, lock)
    ensures Incomplete(Unfinished(lock)) && AllSound(Complete(ch, lock))
    ensures Unfinished(lock) != [] ==> Sound(lock.frame) && Unfinished(lock) < lock.frame.Bytes()
  {
    if Unfinished(lock) != [] {
      var f := lock.frame;
      assert Frames(ch.order)[|ch.order| - 1] == f;
      assert f.header < f.Bytes();
      StrictPrefixIncomplete(f, f.header);
    }
  }

  /** What is on the wire: whole frames in lock order, and at most the header of the lock holder. */
  ghost predicate WholeFrames(ch: Channel, lock: Lock) {
    ch.written == Flatten(Whole(ch, lock)) + Partial(lock)
  }

  lemma WrittenIsFrames(ch: Channel, lock: Lock)
    requires ChannelOk(ch, lock)
    ensures WholeFrames(ch, lock)
  {
    if lock.Held? && lock.headerOut && lock.frame.payload == [] {
      var fs := Frames(ch.order);
      assert fs == Whole(ch, lock) + [lock.frame];
      FlattenSnoc(Whole(ch, lock), lock.frame);
      assert lock.frame.Bytes() == lock.frame.header;
      assert Flatten(fs) + [] == Flatten(fs);
    }
  }

  lemma FramesSnoc(order: seq<Sent>, x: Sent)
    ensures Frames(order + [x]) == Frames(order) + [x.frame]
  {
  }

  lemma AcquireKeeps(ch: Channel, t: Tid, f: Frame)
    requires ChannelOk(ch, Free) && Sound(f)
    ensures ChannelOk(ch.(order := ch.order + [Sent(t, f)]), Held(t, false, f))
  {
    FramesSnoc(ch.order, Sent(t, f));
    var ch' := ch.(order := ch.order + [Sent(t, f)]);
    assert Whole(ch', Held(t, false, f)) == Frames(ch.order);
  }

  /** Bytes put on the wire extend both accounts of what was written alike. */
  lemma AppendBalance(ch: Channel, bytes: seq<byte>)
    requires Balanced(ch)
    ensures Balanced(Append(ch, bytes))
  {
  }

  lemma NothingUnfinished(s: seq<byte>)
    ensures s + [] == s
  {
  }

  lemma LastFrame(ch: Channel, lock: Lock)
    requires lock.Held? && LockFits(ch, lock)
    ensures Frames(ch.order) == Whole(ch, lock) + [lock.frame]
    ensures Flatten(Frames(ch.order)) == Flatten(Whole(ch, lock)) + lock.frame.Bytes()
  {
    assert Frames(ch.order) == Whole(ch, lock) + [lock.frame];
    FlattenSnoc(Whole(ch, lock), lock.frame);
  }

  lemma HeaderKeeps(ch: Channel, t: Tid, f: Frame)
    requires ChannelOk(ch, Held(t, false, f))
    ensures ChannelOk(Append(ch, f.header), Held(t, true, f))
  {
    var lock, lock' := Held(t, false, f), Held(t, true, f);
    AppendBalance(ch, f.header);
    LastFrame(ch, lock);
    NothingUnfinished(Flatten(Whole(ch, lock)));
    var ch' := Append(ch, f.header);
    assert Whole(ch', lock') == Whole(ch, lock);
    if f.payload == [] {
      NothingUnfinished(f.header);
      NothingUnfinished(ch'.written);
      assert Complete(ch', lock') == Frames(ch.order);
    } else {
      assert Complete(ch', lock') == Whole(ch, lock);
    }
  }

  lemma PayloadKeeps(ch: Channel, t: Tid, f: Frame)
    requires ChannelOk(ch, Held(t, true, f))
    ensures ChannelOk(Append(ch, f.payload), Free)
  {
    var lock := Held(t, true, f);
    AppendBalance(ch, f.payload);
    LastFrame(ch, lock);
    NothingUnfinished(Flatten(Frames(ch.order)));
    NothingUnfinished(ch.written);
    Assoc(Flatten(Whole(ch, lock)), f.header, f.payload);
  }

  /** What is left of the stream for the receiver, counted from its last delivery. */
  lemma Remaining(ch: Channel, lock: Lock)
    requires ChannelOk(ch, lock)
    ensures Pending(ch.conn) + ch.inflight
         == Flatten(Complete(ch, lock)[|ch.delivered|..]) + Unfinished(lock)
  {
    var fs, k := Complete(ch, lock), |ch.delivered|;
    assert fs == ch.delivered + fs[k..];
    FlattenAppend(ch.delivered, fs[k..]);
    Assoc(Flatten(ch.delivered), Flatten(fs[k..]), Unfinished(lock));
    Assoc(Flatten(ch.delivered), Pending(ch.conn), ch.inflight);
    SameSuffix(Flatten(ch.delivered), Pending(ch.conn) + ch.inflight, Flatten(fs[k..]) + Unfinished(lock));
  }

  lemma SameSuffix(a: seq<byte>, b: seq<byte>, c: seq<byte>)
    requires a + b == a + c
    ensures b == c
  {
    assert b == (a + b)[|a|..] == (a + c)[|a|..] == c;
  }

  /** Unread bytes `p` in which nothing is complete, at the front of a stream of frames. */
  lemma FrontOfStream(p: seq<byte>, more: seq<byte>, fs: seq<Frame>, tail: seq<byte>)
    requires AllSound(fs) && Incomplete(tail) && Incomplete(p)
    requires p + more == Flatten(fs) + tail
    ensures fs != [] ==> p < fs[0].Bytes()
    ensures fs == [] ==> p <= p + more == tail
  {
    SplitStream(p, more, fs, tail, []);
    SplitShort(p, []);
    if fs == [] {
      assert Flatten(fs) + tail == tail;
    }
  }

  /** The frame after the `k` delivered ones in the lock order, when there are still bytes for it. */
  lemma NextWholeFrame(ch: Channel, lock: Lock, k: nat)
    requires LockFits(ch, lock) && k < |Complete(ch, lock)|
    ensures k < |ch.order| && Complete(ch, lock)[k..][0] == Frames(ch.order)[k]
  {
  }

  /** The bytes between the last delivery and what is still in flight are the beginning of one frame, the
      next one in lock order. */
  lemma PendingIsPartOfNext(ch: Channel, lock: Lock)
    requires ChannelOk(ch, lock)
    ensures Pending(ch.conn) != [] || ch.inflight != [] ==>
              |ch.delivered| < |ch.order| && Pending(ch.conn) < Frames(ch.order)[|ch.delivered|].Bytes()
  {
    var fs, k := Complete(ch, lock), |ch.delivered|;
    Remaining(ch, lock);
    UnfinishedIncomplete(ch, lock);
    FrontOfStream(Pending(ch.conn), ch.inflight, fs[k..], Unfinished(lock));
    if k < |fs| {
      NextWholeFrame(ch, lock, k);
    } else {
      PendingUnfinished(ch, lock);
    }
  }

  /** With all complete frames delivered, the rest is the header of the lock holder. */
  lemma PendingUnfinished(ch: Channel, lock: Lock)
    requires LockFits(ch, lock) && |ch.delivered| == |Complete(ch, lock)|
    requires Pending(ch.conn) <= Pending(ch.conn) + ch.inflight == Unfinished(lock)
    ensures Pending(ch.conn) != [] || ch.inflight != [] ==>
              |ch.delivered| < |ch.order| && Pending(ch.conn) < Frames(ch.order)[|ch.delivered|].Bytes()
  {
  }

  /** A read takes frames from the front of the stream that remains after `delivered`, and nothing else. */
  lemma StreamRead(delivered: seq<Frame>, fs: seq<Frame>, tail: seq<byte>, p: seq<byte>, more: seq<byte>, t: seq<byte>)
    requires AllSound(fs) && Incomplete(tail) && delivered <= fs
    requires p + more == Flatten(fs[|delivered|..]) + tail
    ensures var q := Split(p, t); delivered + q.frames <= fs && Incomplete(q.rest)
  {
    var rest := fs[|delivered|..];
    SplitStream(p, more, rest, tail, t);
    var d := Split(p, t).frames;
    assert d <= rest;
    assert fs == delivered + rest;
  }

  lemma ReadTakesFrames(ch: Channel, lock: Lock, data: seq<byte>)
    requires ChannelOk(ch, lock) && CanRead(ch, Got(data))
    ensures var o := OnData(Intended, ch.conn, Got(data));
            ch.delivered + o.delivered <= Complete(ch, lock) && Incomplete(Pending(o.conn))
  {
    var more := ch.inflight[|data|..];
    assert ch.inflight == data + more;
    Assoc(Pending(ch.conn), data, more);
    Remaining(ch, lock);
    UnfinishedIncomplete(ch, lock);
    StreamRead(ch.delivered, Complete(ch, lock), Unfinished(lock),
               Pending(ch.conn) + data, more, Stale(ch.conn)[|data|..]);
    ReadIsSplit(ch.conn, data);
  }

  lemma FailedReadKeepsAll(ch: Channel)
    ensures CanRead(ch, Failed) && ReadFrom(Intended, ch, Failed) == ch
  {
  }

  /** The receiver's side of a channel may change as long as the account stays balanced. */
  lemma ReceiverMayMove(ch: Channel, ch': Channel, lock: Lock)
    requires ChannelOk(ch, lock)
    requires ch'.order == ch.order && ch'.written == ch.written
    requires Balanced(ch') && ch'.delivered <= Complete(ch, lock) && Incomplete(Pending(ch'.conn))
    ensures ChannelOk(ch', lock)
  {
    assert Complete(ch', lock) == Complete(ch, lock);
  }

  lemma ReadKeeps(ch: Channel, lock: Lock, r: Recv)
    requires ChannelOk(ch, lock) && CanRead(ch, r)
    ensures ChannelOk(ReadFrom(Intended, ch, r), lock)
  {
    match r
    case Failed =>
      FailedReadKeepsAll(ch);
    case Got(data) =>
      ReadTakesFrames(ch, lock, data);
      ReadBalance(ch, data);
      ReceiverMayMove(ch, ReadFrom(Intended, ch, Got(data)), lock);
  }

  lemma ReadBalance(ch: Channel, data: seq<byte>)
    requires Balanced(ch) && CanRead(ch, Got(data))
    ensures Balanced(ReadFrom(Intended, ch, Got(data)))
  {
    var o := OnData(Intended, ch.conn, Got(data));
    var more := ch.inflight[|data|..];
    assert ch.inflight == data + more;
    IntendedConserves(ch.conn, Got(data));
    FlattenAppend(ch.delivered, o.delivered);
    ReadConserves(ch, o, data, more);
  }

  lemma ReadConserves(ch: Channel, o: Outcome, data: seq<byte>, more: seq<byte>)
    requires Flatten(o.delivered) + Pending(o.conn) == Pending(ch.conn) + data
    requires Flatten(ch.delivered + o.delivered) == Flatten(ch.delivered) + Flatten(o.delivered)
    ensures Flatten(ch.delivered + o.delivered) + Pending(o.conn) + more
         == Flatten(ch.delivered) + Pending(ch.conn) + (data + more)
  {
    var d := Flatten(ch.delivered);
    Assoc(d, Flatten(o.delivered), Pending(o.conn));
    Assoc(d, Pending(ch.conn), data);
    Assoc(d + Pending(ch.conn), data, more);
  }

  // ---- Consequences for the receiver

  /** At most the sent messages, in lock order, each whole: what is delivered is a prefix of the order. */
  lemma DeliveredIsPrefix(ch: Channel, lock: Lock)
    requires ChannelOk(ch, lock)
    ensures ch.delivered <= Frames(ch.order)
    ensures ch.written == Flatten(ch.delivered) + Pending(ch.conn) + ch.inflight
  {
  }

  /** All of them, once the wire is drained and no send is under way. */
  lemma DeliveredIsAll(ch: Channel)
    requires ChannelOk(ch, Free) && ch.inflight == []
    ensures ch.delivered == Frames(ch.order) && ch.conn.pos == 0
  {
    var fs, k := Frames(ch.order), |ch.delivered|;
    Remaining(ch, Free);
    PendingIsPartOfNext(ch, Free);
    var p := Pending(ch.conn);
    assert p + [] == p && Flatten(fs[k..]) + [] == Flatten(fs[k..]);
    FlattenAtLeast(fs[k..]);
  }

  lemma FlattenAtLeast(fs: seq<Frame>)
    requires AllSound(fs)
    ensures fs != [] ==> |Flatten(fs)| >= |fs[0].Bytes()| >= HEADER_LEN
  {
  }

  ghost predicate AllFit(ch: Channel) {
    forall i | 0 <= i < |ch.order| :: |ch.order[i].frame.Bytes()| <= |ch.conn.buf|
  }

  /** With frames that fit the buffer, the receiver can always take at least one byte from the wire. */
  lemma WindowStaysOpen(ch: Channel, lock: Lock)
    requires ChannelOk(ch, lock) && AllFit(ch) && ch.inflight != []
    ensures ch.conn.pos < |ch.conn.buf|
  {
    PendingIsPartOfNext(ch, lock);
    var f := Frames(ch.order)[|ch.delivered|];
    assert f == ch.order[|ch.delivered|].frame;
    assert Sound(f) && |f.Bytes()| >= HEADER_LEN;
    assert ch.conn.pos == |Pending(ch.conn)|;
  }
}
