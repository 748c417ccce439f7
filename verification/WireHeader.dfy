/** The 8-byte header that send_data puts in front of every message. */
module WireHeader {
  import opened Decimal

  /** sizeof(size_t), and with it the length of the header on the wire. */
  const HEADER_LEN: nat := 8

  /** The first size whose decimal text no longer fits the 7 characters snprintf may print. */
  const SIZE_LIMIT: nat := 10_000_000

  /** snprintf(header, 8, "%zu", n): at most 7 digits, then NUL. */
  function Text(n: nat): (s: seq<byte>)
    ensures 0 < |s| <= HEADER_LEN - 1 && AllDigits(s)
  {
    var s := Print(n);
    if |s| <= HEADER_LEN - 1 then s else s[..HEADER_LEN - 1]
  }

  /** The header array after snprintf; `init` is what the uninitialised array held before. */
  function Header(init: seq<byte>, n: nat): (h: seq<byte>)
    requires |init| == HEADER_LEN
    ensures |h| == HEADER_LEN
  {
    Text(n) + [NUL] + init[|Text(n)| + 1..]
  }

  /** The size a header announces: the first seven digits of the real one. */
  function Announced(n: nat): nat {
    var len := |Print(n)|;
    if len <= HEADER_LEN - 1 then n else Shift10(n, len - (HEADER_LEN - 1))
  }

  /** What the eight bytes are: the first digits of the size, seven at most, a NUL, and what the array held. */
  lemma HeaderLayout(init: seq<byte>, n: nat)
    requires |init| == HEADER_LEN
    ensures var h := Header(init, n); var k := if |Print(n)| < 7 then |Print(n)| else 7;
            && |h| == 8 && h[..k] == Print(n)[..k] && h[k] == 0
            && forall i | k < i < 8 :: h[i] == init[i]
  {
  }

  lemma SevenDigits(n: nat)
    ensures |Print(n)| <= HEADER_LEN - 1 <==> n < SIZE_LIMIT
  {
    PrintLength(n);
    assert Pow10(7) == SIZE_LIMIT by {
      assert Pow10(3) == 1000;
      assert Pow10(5) == 100 * Pow10(3);
      assert Pow10(7) == 100 * Pow10(5);
    }
    if |Print(n)| <= 7 {
      Pow10Monotone(|Print(n)|, 7);
    } else {
      Pow10Monotone(7, |Print(n)| - 1);
    }
  }

  lemma TextValue(n: nat)
    ensures ValueOf(Text(n)) == Announced(n)
  {
    PrintValue(n);
    var len := |Print(n)|;
    if len > HEADER_LEN - 1 {
      PrintPrefix(n, len - (HEADER_LEN - 1));
      PrintValue(Shift10(n, len - (HEADER_LEN - 1)));
    }
  }

  /** The announced size is right exactly below 10^7; beyond that it has seven digits and is too small. */
  lemma AnnouncedSize(n: nat)
    ensures Announced(n) < SIZE_LIMIT
    ensures n < SIZE_LIMIT ==> Announced(n) == n
    ensures n >= SIZE_LIMIT ==> SIZE_LIMIT / 10 <= Announced(n) < n
  {
    SevenDigits(n);
    var len := |Print(n)|;
    if len > HEADER_LEN - 1 {
      var k := len - (HEADER_LEN - 1);
      PrintPrefix(n, k);
      var q := Shift10(n, k);
      assert |Print(q)| == HEADER_LEN - 1;
      SevenDigits(q);
      PrintLength(q);
      assert Pow10(6) == SIZE_LIMIT / 10 by {
        assert Pow10(3) == 1000;
        assert Pow10(6) == 1000 * Pow10(3);
      }
    }
  }

  /** Beyond seven digits the header announces the quotient by a power of ten. */
  lemma AnnouncedQuotient(n: nat)
    requires n >= SIZE_LIMIT
    ensures |Print(n)| > HEADER_LEN - 1
    ensures Announced(n) == n / Pow10(|Print(n)| - (HEADER_LEN - 1))
  {
    SevenDigits(n);
    Shift10Divides(n, |Print(n)| - (HEADER_LEN - 1));
  }

  /** Round trip of the header: whatever the array held before and whatever follows it in memory,
      strtol stops inside the header and reads the announced size. */
  lemma HeaderRoundTrip(init: seq<byte>, n: nat, rest: seq<byte>)
    requires |init| == HEADER_LEN
    ensures Terminates(Header(init, n))
    ensures MsgSize(Header(init, n) + rest) == Announced(n)
    ensures MsgSize(Header(init, n) + rest) == n <==> n < SIZE_LIMIT
  {
    TextValue(n);
    AnnouncedSize(n);
    var h := Header(init, n);
    var x := [NUL] + init[|Text(n)| + 1..];
    assert h == Text(n) + x;
    StrtolOfDigits(Text(n), x);
    TerminatedIgnoresRest(h, rest);
  }
}
