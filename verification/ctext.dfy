/**
 * The C text primitives the driver relies on: decimal printing of an integer
 * (what `print(int)` puts on the line), base-10 `strtol` with its end pointer,
 * and the integer narrowing casts applied to what `strtol` returns.
 *
 * A text argument stands for a NUL-terminated C string: index |z| is its
 * terminator, and nothing is read beyond it.
 */
module CText {
  import opened Types

  /** `isdigit` */
  predicate IsDigit(c: char) {
    '0' <= c <= '9'
  }

  /** `isspace` in the C locale */
  predicate IsSpace(c: char) {
    c == ' ' || c == '\t' || c == '\n' || c == '\U{0B}' || c == '\U{0C}' || c == '\r'
  }

  function DigitChar(d: nat): (c: char)
    requires d < 10
    ensures IsDigit(c) && c as int - '0' as int == d
  {
    ('0' as int + d) as char
  }

  function DigitValue(c: char): (d: nat)
    requires IsDigit(c)
    ensures d < 10
  {
    c as int - '0' as int
  }

  predicate AllDigits(s: string) {
    forall k :: 0 <= k < |s| ==> IsDigit(s[k])
  }

  /** The number the first `k` digits of a run denote, most significant first. */
  function ValueOf(s: string, k: nat): nat
    requires k <= |s| && AllDigits(s)
  {
    if k == 0 then 0 else 10 * ValueOf(s, k - 1) + DigitValue(s[k - 1])
  }

  /** Two runs that agree on their first `k` digits agree on what those digits denote. */
  lemma {:induction false} ValueOfAgree(s: string, t: string, k: nat)
    requires k <= |s| && k <= |t| && AllDigits(s) && AllDigits(t)
    requires forall i :: 0 <= i < k ==> s[i] == t[i]
    ensures ValueOf(s, k) == ValueOf(t, k)
  {
    if k > 0 {
      ValueOfAgree(s, t, k - 1);
    }
  }

  /** The number a run of decimal digits denotes. */
  function Value(s: string): nat
    requires AllDigits(s)
  {
    ValueOf(s, |s|)
  }

  /** Decimal rendering of a non-negative integer, as `print` writes it. */
  function Dec(n: nat): (r: string)
    ensures 1 <= |r|
    ensures AllDigits(r)
    ensures Value(r) == n
    ensures r[0] == '0' ==> n == 0   // no leading zeros
  {
    if n < 10 then
      var r := [DigitChar(n)];
      assert ValueOf(r, 0) == 0;
      r
    else
      var r := Dec(n / 10) + [DigitChar(n % 10)];
      ValueOfAgree(r, Dec(n / 10), |r| - 1);
      r
  }

  // Range of the `long` that `strtol` returns (32 bits on the driver's targets).
  const LongMin: int := -0x8000_0000
  const LongMax: int := 0x7fff_ffff

  /** `strtol`'s saturation of an out-of-range value. */
  function Clamp(v: int): (r: int)
    ensures LongMin <= r <= LongMax
    ensures LongMin <= v <= LongMax ==> r == v
    ensures v > LongMax ==> r == LongMax
    ensures v < LongMin ==> r == LongMin
  {
    if v < LongMin then LongMin else if v > LongMax then LongMax else v
  }

  /** Result of `strtol(z + p, &end, 10)`: the value and the offset `end` points at. */
  datatype Parsed = Parsed(value: int, end: nat)

  /*
   * Base-10 `strtol` on the C string `z` started at offset `p`, in three
   * stages: white space is skipped, one sign is taken, then digits accumulate
   * until a non-digit or the terminator. With no digits the value is 0 and
   * `end` is `p` itself; a value outside `long` saturates.
   */

  /** `strtol(z + p, &end, 10)`. */
  function StrToL(z: string, p: nat): (r: Parsed)
    requires p <= |z|
    ensures p <= r.end <= |z|
    ensures LongMin <= r.value <= LongMax
    ensures r.end == p ==> r.value == 0
    ensures r.end > p ==> IsDigit(z[r.end - 1]) && (r.end == |z| || !IsDigit(z[r.end]))
  {
    SkipBlank(z, p, p)
  }

  /** Leading white space, from offset `k`. */
  function SkipBlank(z: string, p: nat, k: nat): (r: Parsed)
    requires p <= k <= |z|
    ensures p <= r.end <= |z|
    ensures LongMin <= r.value <= LongMax
    ensures r.end == p ==> r.value == 0
    ensures r.end > p ==> IsDigit(z[r.end - 1]) && (r.end == |z| || !IsDigit(z[r.end]))
    decreases |z| - k
  {
    if k < |z| && IsSpace(z[k]) then SkipBlank(z, p, k + 1)
    else if k < |z| && (z[k] == '-' || z[k] == '+') then AfterSign(z, p, k + 1, z[k] == '-')
    else AfterSign(z, p, k, false)
  }

  /** After the optional sign at offset `k`: a digit must follow, or nothing was converted. */
  function AfterSign(z: string, p: nat, k: nat, negative: bool): (r: Parsed)
    requires p <= k <= |z|
    ensures p <= r.end <= |z|
    ensures LongMin <= r.value <= LongMax
    ensures r.end == p ==> r.value == 0
    ensures r.end > p ==> IsDigit(z[r.end - 1]) && (r.end == |z| || !IsDigit(z[r.end]))
  {
    if k < |z| && IsDigit(z[k]) then DigitRun(z, k + 1, negative, DigitValue(z[k]))
    else Parsed(0, p)
  }

  /** Inside the digits at offset `k`, with the magnitude `acc` read so far. */
  function DigitRun(z: string, k: nat, negative: bool, acc: nat): (r: Parsed)
    requires 0 < k <= |z| && IsDigit(z[k - 1])
    ensures k <= r.end <= |z|
    ensures LongMin <= r.value <= LongMax
    ensures IsDigit(z[r.end - 1]) && (r.end == |z| || !IsDigit(z[r.end]))
    decreases |z| - k
  {
    if k < |z| && IsDigit(z[k]) then DigitRun(z, k + 1, negative, 10 * acc + DigitValue(z[k]))
    else Parsed(Clamp(if negative then -(acc as int) else acc), k)
  }

  /** Decimal rendering of a signed value, with a leading '-' when negative. */
  function SignedDec(v: int): (r: string)
    ensures 1 <= |r| && (r[0] == '-' <==> v < 0)
  {
    if v < 0 then "-" + Dec(-v) else Dec(v)
  }

  /** Conversion of a `long` to `uint8_t`: reduction modulo 256. */
  function ToUint8(v: int): (r: int)
    ensures 0 <= r < 0x100
    ensures (v - r) % 0x100 == 0
    ensures 0 <= v < 0x100 ==> r == v
  {
    v % 0x100
  }

  /** Conversion of a `long` to `int8_t`: two's-complement wrap into -128..127. */
  function ToInt8(v: int): (r: int)
    ensures -0x80 <= r < 0x80
    ensures (v - r) % 0x100 == 0
    ensures -0x80 <= v < 0x80 ==> r == v
  {
    var m := v % 0x100;
    if m < 0x80 then m else m - 0x100
  }

  /**
   * Inside a run of digits `ds` that starts at `s` and ends at a non-digit or
   * the terminator, having consumed its first `j` digits, the scan reads the
   * rest of the run.
   */
  lemma {:induction false} DigitRunReads(z: string, s: nat, negative: bool, ds: string, j: nat)
    requires AllDigits(ds) && 1 <= j <= |ds|
    requires s + |ds| <= |z|
    requires forall i :: 0 <= i < |ds| ==> z[s + i] == ds[i]
    requires s + |ds| == |z| || !IsDigit(z[s + |ds|])
    ensures DigitRun(z, s + j, negative, ValueOf(ds, j))
            == Parsed(Clamp(if negative then -(Value(ds) as int) else Value(ds)), s + |ds|)
    decreases |ds| - j
  {
    assert z[s + j - 1] == ds[j - 1];
    if j < |ds| {
      assert z[s + j] == ds[j];
      DigitRunReads(z, s, negative, ds, j + 1);
    }
  }

  /**
   * `strtol` on the C string `z` from offset `p`, where `p` holds an optional
   * '-' and then the run of digits `ds`, followed by anything but a digit:
   * the value of the run, with its sign, and the end right after its last digit.
   */
  lemma StrToLReadsRun(z: string, p: nat, negative: bool, ds: string)
    requires 1 <= |ds| && AllDigits(ds)
    requires if negative then Value(ds) <= -LongMin else Value(ds) <= LongMax
    requires p + (if negative then 1 else 0) + |ds| <= |z|
    requires negative ==> z[p] == '-'
    requires z[p + (if negative then 1 else 0)..p + (if negative then 1 else 0) + |ds|] == ds
    requires var e := p + (if negative then 1 else 0) + |ds|; e == |z| || !IsDigit(z[e])
    ensures StrToL(z, p) == Parsed(if negative then -(Value(ds) as int) else Value(ds), p + (if negative then 1 else 0) + |ds|)
  {
    var d := p + (if negative then 1 else 0);
    assert forall i :: 0 <= i < |ds| ==> z[d + i] == ds[i] by {
      forall i | 0 <= i < |ds| ensures z[d + i] == ds[i] {
        assert z[d..d + |ds|][i] == ds[i];
      }
    }
    assert z[d] == ds[0];
    assert ValueOf(ds, 1) == DigitValue(ds[0]) by {
      assert ValueOf(ds, 0) == 0;
    }
    DigitRunReads(z, d, negative, ds, 1);
    assert !IsSpace(z[p]);
  }

  /** White space from `k` up to `q` is skipped without effect on the result. */
  lemma {:induction false} SkipBlankTo(z: string, p: nat, k: nat, q: nat)
    requires p <= k <= q <= |z|
    requires forall i :: k <= i < q ==> IsSpace(z[i])
    ensures SkipBlank(z, p, k) == SkipBlank(z, p, q)
    decreases q - k
  {
    if k < q {
      SkipBlankTo(z, p, k + 1, q);
    }
  }

  /** The offset of the first digit after `blanks` white-space characters and the optional `sign`. */
  function DigitsAt(p: nat, blanks: nat, sign: string): nat {
    p + blanks + |sign|
  }

  /** The shape `strtol` accepts in front of the digits: white space, then at most one sign. */
  predicate Lead(z: string, p: nat, blanks: nat, sign: string) {
    && (sign == "" || sign == "-" || sign == "+")
    && DigitsAt(p, blanks, sign) <= |z|
    && (forall i :: p <= i < p + blanks ==> IsSpace(z[i]))
    && z[p + blanks..DigitsAt(p, blanks, sign)] == sign
  }

  /**
   * `strtol` on white space, an optional sign and a run of digits followed
   * by a non-digit or the terminator: the signed value of the run, saturated
   * to the range of `long`, and the end right after its last digit.
   */
  lemma StrToLReads(z: string, p: nat, blanks: nat, sign: string, ds: string)
    requires Lead(z, p, blanks, sign)
    requires 1 <= |ds| && AllDigits(ds)
    requires DigitsAt(p, blanks, sign) + |ds| <= |z|
    requires z[DigitsAt(p, blanks, sign)..DigitsAt(p, blanks, sign) + |ds|] == ds
    requires var e := DigitsAt(p, blanks, sign) + |ds|; e == |z| || !IsDigit(z[e])
    ensures StrToL(z, p) == Parsed(Clamp(if sign == "-" then -(Value(ds) as int) else Value(ds)),
                                   DigitsAt(p, blanks, sign) + |ds|)
  {
    var d := DigitsAt(p, blanks, sign);
    var negative := sign == "-";
    assert forall i :: 0 <= i < |ds| ==> z[d + i] == ds[i] by {
      forall i | 0 <= i < |ds| ensures z[d + i] == ds[i] {
        assert z[d..d + |ds|][i] == ds[i];
      }
    }
    assert IsDigit(z[d]);
    LeadReachesDigits(z, p, blanks, sign);
    assert AfterSign(z, p, d, negative) == DigitRun(z, d + 1, negative, DigitValue(z[d]));
    assert ValueOf(ds, 1) == DigitValue(ds[0]) by {
      assert ValueOf(ds, 0) == 0;
    }
    DigitRunReads(z, d, negative, ds, 1);
  }

  /** Skipping the white space and the sign leads to the digit stage at the first digit offset. */
  lemma LeadReachesDigits(z: string, p: nat, blanks: nat, sign: string)
    requires Lead(z, p, blanks, sign)
    requires sign == "" ==> p + blanks == |z| || (!IsSpace(z[p + blanks]) && z[p + blanks] != '-' && z[p + blanks] != '+')
    ensures StrToL(z, p) == AfterSign(z, p, DigitsAt(p, blanks, sign), sign == "-")
  {
    var k := p + blanks;
    SkipBlankTo(z, p, p, k);
    if sign != "" {
      assert z[k] == z[k..DigitsAt(p, blanks, sign)][0] == sign[0];
    }
  }

  /**
   * `strtol` on white space and an optional sign not followed by a digit
   * converts nothing: the value is 0 and the end is where the read started.
   */
  lemma StrToLNoDigits(z: string, p: nat, blanks: nat, sign: string)
    requires Lead(z, p, blanks, sign)
    requires sign == "" ==> p + blanks == |z| || (!IsSpace(z[p + blanks]) && z[p + blanks] != '-' && z[p + blanks] != '+')
    requires var d := DigitsAt(p, blanks, sign); d == |z| || !IsDigit(z[d])
    ensures StrToL(z, p) == Parsed(0, p)
  {
    LeadReachesDigits(z, p, blanks, sign);
  }

  /** Decimal renderings of small numbers are short: one digit below 10, at most three below 1000. */
  lemma DecShort(n: nat)
    ensures n < 10 ==> |Dec(n)| == 1
    ensures n < 100 ==> |Dec(n)| <= 2
    ensures n < 1000 ==> |Dec(n)| <= 3
  {
    if n >= 10 {
      DecShort(n / 10);
    }
  }
}
