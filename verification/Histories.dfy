/** Whole runs as their users see them: which messages they sent, and which buffers the peers have. */
module Histories {
  import opened Decimal
  import opened Framing
  import opened Reassembly
  import opened SendProtocol
  import opened ChannelInvariant
  import opened SendInvariant
  import opened EndToEnd
  import opened StepEffects

  /** The messages a thread hands to send_data in the course of a run. */
  function MessagesOf(run: seq<Action>, t: Tid): seq<seq<byte>> {
    if run == [] then [] else MessageOf(run[0], t) + MessagesOf(run[1..], t)
  }

  function PayloadsOf(calls: seq<Call>): (ps: seq<seq<byte>>)
    ensures |ps| == |calls| && forall i | 0 <= i < |calls| :: ps[i] == calls[i].frame.payload
  {
    seq(|calls|, i requires 0 <= i < |calls| => calls[i].frame.payload)
  }

  /** The message a step hands to send_data for the thread `t`, if it does. */
  function MessageOf(a: Action, t: Tid): seq<seq<byte>> {
    if a.Enter? && a.tid == t then [a.payload] else []
  }

  lemma SamePayloads(calls: seq<Call>, calls': seq<Call>)
    requires |calls'| == |calls| && forall i | 0 <= i < |calls| :: calls'[i].frame == calls[i].frame
    ensures PayloadsOf(calls') == PayloadsOf(calls) + []
  {
  }

  lemma EnterMessage(v: Variant, s: State, a: Action, t: Tid)
    requires Enabled(s, a) && a.Enter?
    ensures PayloadsOf(CallsOf(Next(v, s, a), t)) == PayloadsOf(CallsOf(s, t)) + MessageOf(a, t)
  {
    EnterEffect(v, s, a.tid, a.handle, a.init, a.payload);
    if t != a.tid {
      SamePayloads(CallsOf(s, t), CallsOf(Next(v, s, a), t));
    } else {
      var calls, calls' := CallsOf(s, t), CallsOf(Next(v, s, a), t);
      assert calls' == calls + [calls'[|calls|]];
    }
  }

  lemma AcquireMessage(v: Variant, s: State, u: Tid, t: Tid)
    requires Enabled(s, Acquire(u))
    ensures PayloadsOf(CallsOf(Next(v, s, Acquire(u)), t)) == PayloadsOf(CallsOf(s, t)) + []
  {
    AcquireEffect(v, s, u);
    var calls, calls' := CallsOf(s, t), CallsOf(Next(v, s, Acquire(u)), t);
    forall i | 0 <= i < |calls|
      ensures calls'[i].frame == calls[i].frame
    {
      if t == u && i < |calls| - 1 {
        assert calls'[..|calls| - 1][i] == calls[..|calls| - 1][i];
      }
    }
    SamePayloads(calls, calls');
  }

  lemma NoMessage(v: Variant, s: State, a: Action, t: Tid)
    requires Enabled(s, a) && !a.Enter? && !a.Acquire?
    ensures CallsOf(Next(v, s, a), t) == CallsOf(s, t)
  {
  }

  /** A step adds the message of an Enter to the calls of its thread, and no other message changes. */
  lemma StepMessages(v: Variant, s: State, a: Action, t: Tid)
    requires Enabled(s, a)
    ensures PayloadsOf(CallsOf(Next(v, s, a), t)) == PayloadsOf(CallsOf(s, t)) + MessageOf(a, t)
  {
    if a.Enter? {
      EnterMessage(v, s, a, t);
    } else if a.Acquire? {
      AcquireMessage(v, s, a.tid, t);
    } else {
      NoMessage(v, s, a, t);
      SamePayloads(CallsOf(s, t), CallsOf(s, t));
    }
  }

  /** Over every run, with either receiver: the messages in the history of a thread are exactly those it handed to
      send_data, in the same order. */
  lemma {:induction false} CallsAreMessages(v: Variant, s: State, run: seq<Action>, t: Tid)
    requires Possible(v, s, run)
    ensures PayloadsOf(CallsOf(Exec(v, s, run), t)) == PayloadsOf(CallsOf(s, t)) + MessagesOf(run, t)
    decreases |run|
  {
    if run == [] {
      SamePayloads(CallsOf(s, t), CallsOf(s, t));
    } else {
      StepMessages(v, s, run[0], t);
      CallsAreMessages(v, Next(v, s, run[0]), run[1..], t);
      Assoc(PayloadsOf(CallsOf(s, t)), MessageOf(run[0], t), MessagesOf(run[1..], t));
    }
  }

  /** `ps` are some of the elements of `qs`, in the same order. */
  predicate Within<T(==)>(ps: seq<T>, qs: seq<T>)
    decreases |qs|
  {
    ps == [] || (qs != [] && (Within(ps, qs[..|qs| - 1])
                              || (ps[|ps| - 1] == qs[|qs| - 1] && Within(ps[..|ps| - 1], qs[..|qs| - 1]))))
  }

  lemma {:induction false} CallsWithin(calls: seq<Call>, c: Cid)
    ensures Within(Payloads(CallsTo(calls, c)), PayloadsOf(calls))
  {
    if calls != [] {
      var n := |calls| - 1;
      CallsWithin(calls[..n], c);
      assert PayloadsOf(calls)[..n] == PayloadsOf(calls[..n]);
      var fs := CallsTo(calls[..n], c);
      if calls[n].place == At(c) {
        assert Payloads(fs + [calls[n].frame])[..|fs|] == Payloads(fs);
      } else {
        assert fs + [] == fs;
      }
    }
  }

  lemma {:induction false} PrefixWithin<T>(ps: seq<T>, k: nat, qs: seq<T>)
    requires Within(ps, qs) && k <= |ps|
    ensures Within(ps[..k], qs)
    decreases |qs|, |ps|
  {
    if k == |ps| {
      assert ps[..k] == ps;
    } else if k > 0 {
      var init := qs[..|qs| - 1];
      if Within(ps, init) {
        PrefixWithin(ps, k, init);
      } else {
        assert ps[..|ps| - 1][..k] == ps[..k];
        PrefixWithin(ps[..|ps| - 1], k, init);
      }
    }
  }

  lemma OrderedAreMessages(run: seq<Action>, t: Tid, c: Cid)
    requires Legal(Intended, START, run) && Possible(Intended, START, run)
    requires c < |Exec(Intended, START, run).channels|
    ensures Within(Payloads(FramesOf(Exec(Intended, START, run).channels[c].order, t)), MessagesOf(run, t))
  {
    var s := Exec(Intended, START, run);
    assert ReachedBy(s, run);
    ThreadOrder(s, t, c);
    CallsAreMessages(Intended, START, run, t);
    assert PayloadsOf(CallsOf(START, t)) + MessagesOf(run, t) == MessagesOf(run, t);
    CallsWithin(CallsOf(s, t), c);
  }

  lemma FirstPayloads(order: seq<Sent>, k: nat, t: Tid, ms: seq<seq<byte>>)
    requires k <= |order| && Within(Payloads(FramesOf(order, t)), ms)
    ensures Within(Payloads(FramesOf(order[..k], t)), ms)
  {
    FramesOfPrefix(order, k, t);
    var got, all := FramesOf(order[..k], t), FramesOf(order, t);
    assert Payloads(all)[..|got|] == Payloads(got);
    PrefixWithin(Payloads(all), |got|, ms);
  }

  /** End to end: what a peer has been given of a thread's messages are messages the thread handed to send_data,
      byte for byte, in the order in which it did. */
  lemma DeliveredAreMessages(run: seq<Action>, t: Tid, c: Cid)
    requires Legal(Intended, START, run) && Possible(Intended, START, run)
    requires c < |Exec(Intended, START, run).channels|
    ensures var ch := Exec(Intended, START, run).channels[c]; var k := |ch.delivered|;
            && ch.delivered <= Frames(ch.order) && k <= |ch.order|
            && Within(Payloads(FramesOf(ch.order[..k], t)), MessagesOf(run, t))
  {
    var s := Exec(Intended, START, run);
    assert ReachedBy(s, run);
    DeliveredInOrder(s, c);
    OrderedAreMessages(run, t, c);
    FirstPayloads(s.channels[c].order, |s.channels[c].delivered|, t, MessagesOf(run, t));
  }

  // ---- Buffers

  function SizeOf(a: Action): seq<nat> {
    if a.Connected? || a.Accepted? then [a.size] else []
  }

  /** The buffer sizes of the connections a run opens, in the order in which it opens them. */
  function SizesOf(run: seq<Action>): seq<nat> {
    if run == [] then [] else SizeOf(run[0]) + SizesOf(run[1..])
  }

  function BufferSizes(s: State): (ns: seq<nat>)
    ensures |ns| == |s.channels| && forall c | 0 <= c < |s.channels| :: ns[c] == |s.channels[c].conn.buf|
  {
    seq(|s.channels|, c requires 0 <= c < |s.channels| => |s.channels[c].conn.buf|)
  }

  lemma OpeningSize(v: Variant, s: State, a: Action)
    requires Enabled(s, a) && (a.Connected? || a.Accepted?)
    ensures BufferSizes(Next(v, s, a)) == BufferSizes(s) + [a.size]
  {
    if a.Connected? {
      ConnectedEffect(v, s, a.tid, a.fd, a.size);
    } else {
      AcceptedEffect(v, s, a.port, a.fd, a.size);
    }
  }

  lemma SameSizes(s: State, s': State)
    requires |s'.channels| == |s.channels|
    requires forall c | 0 <= c < |s.channels| :: |s'.channels[c].conn.buf| == |s.channels[c].conn.buf|
    ensures BufferSizes(s') == BufferSizes(s) + []
  {
  }

  lemma SameBuffers(v: Variant, s: State, a: Action)
    requires Enabled(s, a) && !a.Connected? && !a.Accepted?
    ensures BufferSizes(Next(v, s, a)) == BufferSizes(s) + []
  {
    SameSizes(s, Next(v, s, a));
  }

  /** Over every run, with either receiver, every connection has a buffer of the size with which it was opened. */
  lemma {:induction false} BuffersKeepTheirSizes(v: Variant, s: State, run: seq<Action>)
    requires Possible(v, s, run)
    ensures BufferSizes(Exec(v, s, run)) == BufferSizes(s) + SizesOf(run)
    decreases |run|
  {
    if run == [] {
      SameSizes(s, s);
    } else {
      if run[0].Connected? || run[0].Accepted? {
        OpeningSize(v, s, run[0]);
      } else {
        SameBuffers(v, s, run[0]);
      }
      BuffersKeepTheirSizes(v, Next(v, s, run[0]), run[1..]);
      Assoc(BufferSizes(s), SizeOf(run[0]), SizesOf(run[1..]));
    }
  }

  /** Messages fit a buffer exactly when they are at least 8 bytes shorter. */
  lemma FitsExactly(s: State, c: Cid)
    requires Inv(s) && c < |s.channels|
    ensures var ch := s.channels[c];
            AllFit(ch) <==> forall i | 0 <= i < |ch.order| :: |ch.order[i].frame.payload| + 8 <= |ch.conn.buf|
  {
    var ch := s.channels[c];
    assert AddsUp(ch);
    var lock :| ChannelOk(ch, lock);
    forall i | 0 <= i < |ch.order|
      ensures |ch.order[i].frame.Bytes()| == 8 + |ch.order[i].frame.payload|
    {
      assert Sound(Frames(ch.order)[i]);
    }
  }
}
