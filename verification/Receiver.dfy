/** The receive buffer of one connection, and on_data working on it in place. */
module Receiver {
  import opened Decimal
  import opened WireHeader
  import opened Framing
  import opened Reassembly

  /** The loop of on_data over the first `n` bytes of `b` has reached `at` and found `frames` so far. */
  ghost predicate Reached(b: seq<byte>, n: nat, at: nat, frames: seq<Frame>) {
    && at <= n <= |b|
    && (var p := Split(b[at..n], b[n..]);
        Split(b[..n], b[n..]) == Parsed(frames + p.frames, p.rest))
  }

  lemma LoopStart(b: seq<byte>, n: nat)
    requires n <= |b|
    ensures Reached(b, n, 0, [])
  {
  }

  /** strtol sees the buffer from the current position to its end. */
  lemma LoopReads(b: seq<byte>, n: nat, at: nat)
    requires at <= n <= |b|
    ensures b[at..n] + b[n..] == b[at..]
  {
  }

  lemma ThreeSlices(b: seq<byte>, i: nat, j: nat, k: nat, n: nat)
    requires i <= j <= k <= n <= |b|
    ensures b[i..n] == b[i..j] + b[j..k] + b[k..n]
  {
  }

  lemma LoopTurn(b: seq<byte>, n: nat, at: nat, body: nat, end: nat, frames: seq<Frame>, f: Frame)
    requires Reached(b, n, at, frames)
    requires body == at + HEADER_LEN && end == body + MsgSize(b[at..]) && end <= n
    requires f == Frame(b[at..body], b[body..end])
    ensures Reached(b, n, end, frames + [f])
  {
    LoopReads(b, n, at);
    var x := b[end..n];
    ThreeSlices(b, at, body, end, n);
    SplitHead(f, x, b[n..]);
    Assoc(frames, [f], Split(x, b[n..]).frames);
  }

  /** The loop ends at `at`, because of an unfinished frame or because nothing is left. */
  lemma LoopExit(v: Variant, b: seq<byte>, n: nat, at: nat, frames: seq<Frame>)
    requires Reached(b, n, at, frames)
    requires n - at < HEADER_LEN || n - at - HEADER_LEN < MsgSize(b[at..])
    ensures Absorb(v, b, n).delivered == frames
    ensures at == n ==> Absorb(v, b, n).conn == Conn(Zeros(|b|), 0)
    ensures at < n ==>
              Absorb(v, b, n).conn == Conn(b[at..n] + b[n - at..],
                                           if v.AsWritten? && n - at < HEADER_LEN then n else n - at)
  {
    LoopReads(b, n, at);
    assert frames + [] == frames;
  }

  lemma PayloadsSnoc(fs: seq<Frame>, f: Frame)
    ensures Payloads(fs + [f]) == Payloads(fs) + [f.payload]
  {
  }

  class BufStruct {
    const buf: array<byte>
    var pos: nat

    ghost predicate Valid()
      reads this
    {
      pos <= buf.Length
    }

    /** The buffer as a value. */
    ghost function View(): Window
      requires Valid()
      reads this, buf
    {
      Conn(buf[..], pos)
    }

    /** A buffer as a new connection gets it: `size` zero bytes. */
    constructor (size: nat)
      ensures Valid() && fresh(buf)
      ensures View() == Conn(Zeros(size), 0)
    {
      buf := new byte[size](i => NUL);
      pos := 0;
    }

    /** recv: the bytes go behind the pending ones. */
    method Store(data: seq<byte>)
      requires Valid() && |data| <= buf.Length - pos
      modifies buf
      ensures buf[..] == Stored(old(View()), data)
    {
      for i := 0 to |data|
        invariant buf[pos..pos + i] == data[..i]
        invariant forall j | 0 <= j < buf.Length && !(pos <= j < pos + i) :: buf[j] == old(buf[j])
      {
        buf[pos + i] := data[i];
      }
    }

    /** std::copy of [first, last) to the front of the same buffer; source and destination may overlap. */
    method CopyToFront(first: nat, last: nat)
      requires first <= last <= buf.Length
      modifies buf
      ensures buf[..] == old(buf[first..last]) + old(buf[last - first..])
    {
      for i := 0 to last - first
        invariant forall j | 0 <= j < i :: buf[j] == old(buf[first + j])
        invariant forall j | i <= j < buf.Length :: buf[j] == old(buf[j])
      {
        buf[i] := buf[first + i];
      }
    }

    /** std::memset of the whole buffer. */
    method Clear()
      modifies buf
      ensures buf[..] == Zeros(buf.Length)
    {
      for i := 0 to buf.Length
        invariant forall j | 0 <= j < i :: buf[j] == NUL
      {
        buf[i] := NUL;
      }
    }

    /** on_data. `received` is what recv returns; the result lists the payloads handed to the data callback,
        in order. */
    method OnData(v: Variant, received: Recv) returns (delivered: seq<seq<byte>>)
      requires Valid() && FitsWindow(View(), received)
      modifies this, buf
      ensures Valid()
      ensures View() == Reassembly.OnData(v, old(View()), received).conn
      ensures delivered == Payloads(Reassembly.OnData(v, old(View()), received).delivered)
    {
      match received {
        case Failed =>
          if v == Intended {
            delivered := [];
          } else {
            delivered := AfterRecv(v, pos - 1);
          }
        case Got(data) =>
          Store(data);
          delivered := AfterRecv(v, pos + |data|);
      }
    }

    method AfterRecv(v: Variant, bytesRecv: int) returns (delivered: seq<seq<byte>>)
      requires bytesRecv <= buf.Length
      modifies this, buf
      ensures Valid()
      ensures View() == Reassembly.AfterRecv(v, old(buf[..]), bytesRecv).conn
      ensures delivered == Payloads(Reassembly.AfterRecv(v, old(buf[..]), bytesRecv).delivered)
    {
      if bytesRecv <= 0 {
        pos := 0;
        delivered := [];
      } else {
        delivered := DeliverComplete(v, bytesRecv);
      }
    }

    /** The two branches of on_data that find an unfinished frame at `at` and return. */
    method KeepRest(v: Variant, bytesRecv: nat, at: nat)
      requires at < bytesRecv <= buf.Length
      modifies this, buf
      ensures Valid()
      ensures buf[..] == old(buf[at..bytesRecv]) + old(buf[bytesRecv - at..])
      ensures pos == if v == AsWritten && bytesRecv - at < HEADER_LEN then bytesRecv else bytesRecv - at
    {
      if bytesRecv - at < HEADER_LEN {
        CopyToFront(at, bytesRecv);
        pos := if v == AsWritten then bytesRecv else bytesRecv - at;
      } else {
        if at > 0 {
          CopyToFront(at, bytesRecv);
        }
        pos := bytesRecv - at;
      }
    }

    /** on_data from the loop on: deliver the complete frames, keep the rest. */
    method DeliverComplete(v: Variant, bytesRecv: nat) returns (delivered: seq<seq<byte>>)
      requires 0 < bytesRecv <= buf.Length
      modifies this, buf
      ensures Valid()
      ensures View() == Absorb(v, old(buf[..]), bytesRecv).conn
      ensures delivered == Payloads(Absorb(v, old(buf[..]), bytesRecv).delivered)
    {
      delivered := [];
      ghost var b, frames := buf[..], [];
      LoopStart(b, bytesRecv);
      var currentPos := 0;
      while currentPos < bytesRecv
        invariant 0 <= currentPos <= bytesRecv && buf[..] == b
        invariant Reached(b, bytesRecv, currentPos, frames)
        invariant delivered == Payloads(frames)
        decreases bytesRecv - currentPos
      {
        if bytesRecv - currentPos < HEADER_LEN
           || bytesRecv - currentPos - HEADER_LEN < MsgSize(buf[currentPos..]) {
          LoopExit(v, b, bytesRecv, currentPos, frames);
          KeepRest(v, bytesRecv, currentPos);
          return;
        }
        var body := currentPos + HEADER_LEN;
        var end := body + MsgSize(buf[currentPos..]);
        delivered := delivered + [buf[body..end]];
        ghost var f := Frame(b[currentPos..body], b[body..end]);
        LoopTurn(b, bytesRecv, currentPos, body, end, frames, f);
        PayloadsSnoc(frames, f);
        frames := frames + [f];
        currentPos := end;
      }
      LoopExit(v, b, bytesRecv, currentPos, frames);
      pos := 0;
      Clear();
    }
  }
}
