/** Bytes, and the two C library conversions the wire header goes through: the "%zu" of snprintf and
    the strtol of the receiver. */
module Decimal {

  type byte = x: int | 0 <= x < 256

  const NUL: byte := 0
  const ZERO: byte := 48
  const PLUS: byte := 43
  const MINUS: byte := 45

  /** LONG_MAX + 1 and SIZE_MAX + 1 on the 64-bit targets where sizeof(size_t) is 8. */
  const LONG_RANGE: int := 0x8000_0000_0000_0000
  const SIZE_RANGE: int := 0x1_0000_0000_0000_0000

  predicate IsDigit(b: byte) {
    ZERO <= b <= ZERO + 9
  }

  /** isspace in the C locale. */
  predicate IsSpace(b: byte) {
    b == 32 || 9 <= b <= 13
  }

  predicate AllDigits(s: seq<byte>) {
    forall i | 0 <= i < |s| :: IsDigit(s[i])
  }

  function Pow10(k: nat): (p: nat)
    ensures p > 0
  {
    if k == 0 then 1 else 10 * Pow10(k - 1)
  }

  /** `n` without its last `k` decimal digits. */
  function Shift10(n: nat, k: nat): nat {
    if k == 0 then n else Shift10(n / 10, k - 1)
  }

  /** What "%zu" prints. */
  function Print(n: nat): (s: seq<byte>)
    ensures |s| > 0 && AllDigits(s)
  {
    if n < 10 then [ZERO + n] else Print(n / 10) + [ZERO + n % 10]
  }

  /** The number a run of decimal digits denotes. */
  function ValueOf(s: seq<byte>): nat
    requires AllDigits(s)
  {
    if s == [] then 0 else 10 * ValueOf(s[..|s| - 1]) + (s[|s| - 1] - ZERO)
  }

  /** How many digits `s` starts with. */
  function DigitRun(s: seq<byte>): (k: nat)
    ensures k <= |s| && AllDigits(s[..k])
    ensures k < |s| ==> !IsDigit(s[k])
  {
    if s == [] || !IsDigit(s[0]) then 0 else 1 + DigitRun(s[1..])
  }

  function SkipSpace(s: seq<byte>): seq<byte> {
    if s != [] && IsSpace(s[0]) then SkipSpace(s[1..]) else s
  }

  predicate Signed(s: seq<byte>) {
    s != [] && (s[0] == PLUS || s[0] == MINUS)
  }

  /** The part of `s` where strtol starts counting digits. */
  function Digits(s: seq<byte>): seq<byte> {
    var t := SkipSpace(s);
    if Signed(t) then t[1..] else t
  }

  function Clamp(v: int): (r: int)
    ensures -LONG_RANGE <= r < LONG_RANGE
  {
    if v >= LONG_RANGE then LONG_RANGE - 1 else if v < -LONG_RANGE then -LONG_RANGE else v
  }

  /** strtol(s, NULL, 10); the end of `s` counts as a terminator. */
  function Strtol(s: seq<byte>): (r: int)
    ensures -LONG_RANGE <= r < LONG_RANGE
  {
    var t := SkipSpace(s);
    var d := Digits(s);
    var v: int := ValueOf(d[..DigitRun(d)]);
    Clamp(if Signed(t) && t[0] == MINUS then -v else v)
  }

  /** The number strtol reads in `s` ends inside `s`: nothing that follows `s` in memory matters. */
  predicate Terminates(s: seq<byte>) {
    var d := Digits(s);
    DigitRun(d) < |d|
  }

  /** `size_t msg_size = strtol(...)`: a negative result wraps around. */
  function MsgSize(s: seq<byte>): nat {
    var v := Strtol(s);
    if v < 0 then v + SIZE_RANGE else v
  }

  lemma {:induction false} SkipSpaceAppend(s: seq<byte>, x: seq<byte>)
    requires SkipSpace(s) != []
    ensures SkipSpace(s + x) == SkipSpace(s) + x
  {
    if s != [] && IsSpace(s[0]) {
      assert (s + x)[1..] == s[1..] + x;
      SkipSpaceAppend(s[1..], x);
    }
  }

  lemma {:induction false} DigitRunAppend(s: seq<byte>, x: seq<byte>)
    requires DigitRun(s) < |s|
    ensures DigitRun(s + x) == DigitRun(s)
  {
    if IsDigit(s[0]) {
      assert (s + x)[1..] == s[1..] + x;
      DigitRunAppend(s[1..], x);
    }
  }

  /** A number that ends inside `s` is read the same whatever bytes lie behind `s`. */
  lemma TerminatedIgnoresRest(s: seq<byte>, x: seq<byte>)
    requires Terminates(s)
    ensures Terminates(s + x) && MsgSize(s + x) == MsgSize(s)
  {
    SkipSpaceAppend(s, x);
    var t := SkipSpace(s);
    var d := Digits(s);
    assert Digits(s + x) == d + x by {
      if Signed(t) {
        assert (t + x)[1..] == t[1..] + x;
      }
    }
    DigitRunAppend(d, x);
    assert (d + x)[..DigitRun(d)] == d[..DigitRun(d)];
  }

  lemma {:induction false} PrintValue(n: nat)
    ensures ValueOf(Print(n)) == n
  {
    var s := Print(n);
    if n < 10 {
      assert s[..0] == [];
    } else {
      PrintValue(n / 10);
      assert s[..|s| - 1] == Print(n / 10);
    }
  }

  /** A number at the very start of `s` is what strtol reads. */
  lemma LeadingNumber(s: seq<byte>, k: nat)
    requires 0 < k == DigitRun(s) < |s|
    requires ValueOf(s[..k]) < LONG_RANGE
    ensures Terminates(s) && MsgSize(s) == ValueOf(s[..k])
  {
    assert SkipSpace(s) == s && !Signed(s);
    assert Strtol(s) == Clamp(ValueOf(s[..k]));
  }

  /** Text that consists of a number and then a non-digit is read as that number. */
  lemma StrtolOfDigits(ds: seq<byte>, x: seq<byte>)
    requires ds != [] && AllDigits(ds) && ValueOf(ds) < LONG_RANGE
    requires x != [] && !IsDigit(x[0])
    ensures Terminates(ds + x) && MsgSize(ds + x) == ValueOf(ds)
  {
    DigitRunExact(ds, x);
    assert (ds + x)[..|ds|] == ds;
    LeadingNumber(ds + x, |ds|);
  }

  predicate SpacesOnly(s: seq<byte>) {
    forall i | 0 <= i < |s| :: s[i] in {32, 9, 10, 11, 12, 13}
  }

  lemma {:induction false} SkipsSpaces(spaces: seq<byte>, x: seq<byte>)
    requires SpacesOnly(spaces) && (x != [] ==> !SpacesOnly(x[..1]))
    ensures SkipSpace(spaces + x) == x
  {
    if spaces == [] {
      assert spaces + x == x;
      if x != [] {
        assert x[..1] == [x[0]];
      }
    } else {
      assert (spaces + x)[1..] == spaces[1..] + x;
      SkipsSpaces(spaces[1..], x);
    }
  }

  /** The value strtol returns for a number `v`: overflows stick at the ends of long. */
  function Saturated(v: int): int {
    if v > 9223372036854775807 then 9223372036854775807
    else if v < -9223372036854775808 then -9223372036854775808 else v
  }

  lemma DigitsAfterSign(spaces: seq<byte>, sign: seq<byte>, ds: seq<byte>, x: seq<byte>)
    requires SpacesOnly(spaces) && sign in {[], [43], [45]} && ds != [] && AllDigits(ds)
    ensures var s := spaces + (sign + (ds + x));
            && SkipSpace(s) == sign + (ds + x) && Digits(s) == ds + x
            && (Signed(SkipSpace(s)) <==> sign != [])
  {
    var t := sign + (ds + x);
    assert t[..1] == [t[0]] && t[0] == if sign == [] then ds[0] else sign[0];
    SkipsSpaces(spaces, t);
    if sign == [] {
      assert t == ds + x;
    } else {
      assert t[1..] == ds + x;
    }
  }

  /** Space, a sign, digits and then something else: strtol reads the number, with its sign and within the range
      of long, and assigned to a size_t a negative one wraps around. */
  lemma StrtolReads(spaces: seq<byte>, sign: seq<byte>, ds: seq<byte>, x: seq<byte>)
    requires SpacesOnly(spaces) && sign in {[], [43], [45]}
    requires ds != [] && (forall i | 0 <= i < |ds| :: 48 <= ds[i] <= 57) && x != [] && !(48 <= x[0] <= 57)
    ensures AllDigits(ds)
    ensures var s := spaces + (sign + (ds + x)); var n: int := ValueOf(ds);
            var v := Saturated(if sign == [45] then -n else n);
            && Terminates(s) && Strtol(s) == v
            && MsgSize(s) == if v < 0 then 18446744073709551616 + v else v
  {
    DigitsAfterSign(spaces, sign, ds, x);
    DigitRunExact(ds, x);
    assert (ds + x)[..|ds|] == ds;
  }

  lemma {:induction false} DigitRunExact(ds: seq<byte>, x: seq<byte>)
    requires AllDigits(ds) && x != [] && !IsDigit(x[0])
    ensures DigitRun(ds + x) == |ds|
  {
    if ds == [] {
      assert ds + x == x;
    } else {
      assert (ds + x)[1..] == ds[1..] + x;
      DigitRunExact(ds[1..], x);
    }
  }

  /** The digits are those of ASCII, the most significant one first. */
  lemma PrintSamples()
    ensures Print(0) == [48] && Print(42) == [52, 50] && Print(1907) == [49, 57, 48, 55]
    ensures ValueOf([52, 50]) == 42
  {
    assert Print(4) == [52] && Print(1) == [49];
    assert Print(19) == Print(1) + [57];
    assert Print(190) == Print(19) + [48];
    PrintValue(42);
  }

  /** The printed length says between which powers of ten the number lies. */
  lemma {:induction false} PrintLength(n: nat)
    ensures n < Pow10(|Print(n)|)
    ensures |Print(n)| > 1 ==> n >= Pow10(|Print(n)| - 1)
  {
    if n < 10 {
      assert Pow10(1) == 10 * Pow10(0);
    } else {
      PrintLength(n / 10);
      assert |Print(n)| == |Print(n / 10)| + 1;
    }
  }

  lemma {:induction false} Pow10Monotone(i: nat, j: nat)
    requires i <= j
    ensures Pow10(i) <= Pow10(j)
    decreases j - i
  {
    if i < j {
      Pow10Monotone(i + 1, j);
    }
  }

  lemma DivDiv(n: nat, p: nat)
    requires p > 0
    ensures n / (10 * p) == n / 10 / p
  {
    var a, b := n / 10 / p, n / 10 % p;
    assert n / 10 == p * a + b;
    var c := 10 * b + n % 10;
    assert (10 * p) * a == 10 * (p * a);
    assert n == (10 * p) * a + c && c < 10 * p;
    DivUnique(n, 10 * p, a, c);
  }

  lemma DivUnique(n: int, d: int, q: int, r: int)
    requires 0 <= r < d && n == d * q + r
    ensures n / d == q
  {
    var q', r' := n / d, n % d;
    var e := q - q';
    assert n == d * q' + r' && 0 <= r' < d;
    assert d * e == r' - r by {
      assert d * e == d * q - d * q';
    }
    assert d * -e == -(d * e);
    if e > 0 {
      MulAtLeast(d, e);
    } else if e < 0 {
      MulAtLeast(d, -e);
    }
  }

  lemma {:induction false} MulAtLeast(d: int, k: int)
    requires d > 0 && k > 0
    ensures d * k >= d
    decreases k
  {
  }

  lemma {:induction false} Shift10Divides(n: nat, k: nat)
    ensures Shift10(n, k) == n / Pow10(k)
  {
    if k > 0 {
      Shift10Divides(n / 10, k - 1);
      DivDiv(n, Pow10(k - 1));
    }
  }

  /** Dropping the last `k` printed digits prints what Shift10 leaves of the number. */
  lemma {:induction false} PrintPrefix(n: nat, k: nat)
    requires k < |Print(n)|
    ensures Print(n)[..|Print(n)| - k] == Print(Shift10(n, k))
    decreases k
  {
    var s := Print(n);
    if k == 0 {
      assert s[..|s|] == s;
    } else {
      var s' := Print(n / 10);
      assert s == s' + [ZERO + n % 10];
      PrintPrefix(n / 10, k - 1);
      assert s[..|s| - k] == s'[..|s'| - (k - 1)];
    }
  }
}
