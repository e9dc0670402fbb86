/** CRC-32 with its register as 32 bits, least significant first. */
module Crc32 {
  import opened Iteration

  type Octet = b: seq<bool> | |b| == 8 witness [false, false, false, false, false, false, false, false]
  type Register = r: seq<bool> | |r| == 32 witness Bits(0, 32)

  /** The low `width` bits of a number, least significant first. */
  function Bits(n: nat, width: nat): (r: seq<bool>)
    ensures |r| == width
    decreases width
  {
    if width == 0 then [] else [n % 2 == 1] + Bits(n / 2, width - 1)
  }

  function Value(bits: seq<bool>): nat
    decreases |bits|
  {
    if bits == [] then 0 else (if bits[0] then 1 else 0) + 2 * Value(bits[1..])
  }

  function Power2(n: nat): nat
    decreases n
  {
    if n == 0 then 1 else 2 * Power2(n - 1)
  }

  lemma {:induction false} BitsValue(n: nat, width: nat)
    requires n < Power2(width)
    ensures Value(Bits(n, width)) == n
    decreases width
  {
    if width > 0 { BitsValue(n / 2, width - 1); }
  }

  lemma {:induction false} ValueBits(bits: seq<bool>)
    ensures Value(bits) < Power2(|bits|) && Bits(Value(bits), |bits|) == bits
    decreases |bits|
  {
    if bits != [] {
      ValueBits(bits[1..]);
      assert [bits[0]] + bits[1..] == bits;
    }
  }

  function Zeros(n: nat): (r: seq<bool>)
    ensures |r| == n
  {
    seq(n, _ => false)
  }

  function Xor(a: seq<bool>, b: seq<bool>): (r: seq<bool>)
    requires |a| == |b|
    ensures |r| == |a| && forall i :: 0 <= i < |a| ==> r[i] == (a[i] != b[i])
  {
    seq(|a|, i requires 0 <= i < |a| => a[i] != b[i])
  }

  const POLYNOMIAL := 0xedb88320
  const FEEDBACK: Register := Bits(POLYNOMIAL, 32)
  const ALL_ONES: Register := Bits(0xffffffff, 32)

  function ShiftRight(crc: Register): Register {
    crc[1..] + [false]
  }

  /** The polynomial under the mask of the negated low bit. */
  function Masked(bit: bool): Register {
    if bit then FEEDBACK else Zeros(32)
  }

  function BitStep(crc: Register): Register {
    Xor(ShiftRight(crc), Masked(crc[0]))
  }

  function EightSteps(crc: Register): Register {
    Iterate(BitStep, crc, 8)
  }

  /** `crc ^ byte`: the byte meets the low eight bits. */
  function MixIn(crc: Register, b: Octet): Register {
    Xor(crc, b + Zeros(24))
  }

  function ByteStep(crc: Register, b: Octet): Register {
    EightSteps(MixIn(crc, b))
  }

  /** The register after shifting in every byte of `input`. */
  function Shifted(crc: Register, input: seq<Octet>): Register {
    Fold(ByteStep, crc, input)
  }

  function Crc(input: seq<Octet>): Register {
    Xor(Shifted(ALL_ONES, input), ALL_ONES)
  }

  method ShiftByte(crc: Register, b: Octet) returns (next: Register)
    ensures next == ByteStep(crc, b)
  {
    next := MixIn(crc, b);
    ghost var goal := EightSteps(next);
    for bit := 0 to 8
      invariant Iterate(BitStep, next, 8 - bit) == goal
    {
      next := Xor(ShiftRight(next), Masked(next[0]));
    }
  }

  method Crc32(input: seq<Octet>) returns (r: Register)
    ensures r == Crc(input)
  {
    var crc := ALL_ONES;
    for i := 0 to |input|
      invariant Fold(ByteStep, crc, input[i..]) == Shifted(ALL_ONES, input)
    {
      assert input[i..][1..] == input[i + 1..];
      crc := ShiftByte(crc, input[i]);
    }
    r := Xor(crc, ALL_ONES);
  }

  lemma {:induction false} PowerSum(a: nat, b: nat)
    ensures Power2(a + b) == Power2(a) * Power2(b)
    decreases a
  {
    if a > 0 { PowerSum(a - 1, b); }
  }

  lemma WordPowers()
    ensures Power2(8) == 0x100 && Power2(31) == 0x8000_0000 && Power2(32) == 0x1_0000_0000
  {
    assert Power2(4) == 16;
    PowerSum(4, 4); PowerSum(8, 8); PowerSum(16, 16);
  }

  lemma {:induction false} TopBit(n: nat, width: nat)
    requires n < Power2(width + 1)
    ensures Bits(n, width + 1)[width] <==> n >= Power2(width)
    decreases width
  {
    if width > 0 { TopBit(n / 2, width - 1); }
  }

  /** The polynomial's top bit is set, so a step records the bit it shifts out. */
  lemma FeedbackTopBit()
    ensures FEEDBACK[31]
  {
    WordPowers();
    TopBit(POLYNOMIAL, 31);
  }

  lemma BitStepInjective(a: Register, b: Register)
    requires BitStep(a) == BitStep(b)
    ensures a == b
  {
    FeedbackTopBit();
    assert BitStep(a)[31] == a[0] && BitStep(b)[31] == b[0];
    forall i | 0 <= i < 32 ensures a[i] == b[i] {
      if i > 0 { assert BitStep(a)[i - 1] == BitStep(b)[i - 1]; }
    }
  }

  lemma BitStepDistributes(a: Register, b: Register)
    ensures BitStep(Xor(a, b)) == Xor(BitStep(a), BitStep(b))
  {
    forall i | 0 <= i < 32 ensures BitStep(Xor(a, b))[i] == Xor(BitStep(a), BitStep(b))[i] {
    }
  }

  /** A result whose top bit is clear was only shifted. */
  lemma BitStepOnlyShifts(y: Register, z: Register)
    requires z == BitStep(y) && !z[31]
    ensures forall i :: 0 <= i < 32 ==> y[i] == (i > 0 && z[i - 1])
  {
    FeedbackTopBit();
    assert z[31] == (false != Masked(y[0])[31]);
    assert Masked(y[0]) == Zeros(32);
    forall i | 0 <= i < 32 ensures y[i] == (i > 0 && z[i - 1]) {
      if i > 0 { assert z[i - 1] == (ShiftRight(y)[i - 1] != Zeros(32)[i - 1]); }
    }
  }

  /** The top `n` bits are clear. */
  predicate TopClear(c: Register, n: nat) { forall i :: 0 <= i < 32 && i + n >= 32 ==> !c[i] }

  /** `c` is `y` without its low `n` bits, which were clear. */
  predicate ShiftedDown(y: Register, n: nat, c: Register) { forall i :: 0 <= i < 32 ==> y[i] == BitAt(c, i - n) }

  predicate BitAt(c: Register, i: int) { 0 <= i < 32 && c[i] }

  /** Steps that leave the top bits clear only shifted their argument. */
  lemma {:induction false} StepsOnlyShift(y: Register, n: nat, c: Register)
    requires n <= 32 && c == Iterate(BitStep, y, n) && TopClear(c, n)
    ensures ShiftedDown(y, n, c)
    decreases n
  {
    if n > 0 {
      var z := BitStep(y);
      StepsOnlyShift(z, n - 1, c);
      ShiftOneMore(y, z, c, n);
    }
  }

  lemma ShiftOneMore(y: Register, z: Register, c: Register, n: nat)
    requires 0 < n <= 32 && z == BitStep(y) && !c[32 - n] && ShiftedDown(z, n - 1, c)
    ensures ShiftedDown(y, n, c)
  {
    assert z[31] == BitAt(c, 31 - (n - 1));
    BitStepOnlyShifts(y, z);
    forall i | 0 <= i < 32 ensures y[i] == BitAt(c, i - n) {
      if i > 0 { assert z[i - 1] == BitAt(c, i - 1 - (n - 1)); }
    }
  }

  function XorRegister(a: Register, b: Register): Register { Xor(a, b) }

  lemma EightStepsDistribute(a: Register, b: Register)
    ensures EightSteps(Xor(a, b)) == Xor(EightSteps(a), EightSteps(b))
  {
    forall x: Register, y: Register ensures BitStep(XorRegister(x, y)) == XorRegister(BitStep(x), BitStep(y)) {
      BitStepDistributes(x, y);
    }
    IterateDistributes(BitStep, XorRegister, a, b, 8);
  }

  lemma XorCancels(a: seq<bool>, b: seq<bool>, x: seq<bool>)
    requires |a| == |b| == |x| && Xor(a, x) == Xor(b, x)
    ensures a == b
  {
    forall i | 0 <= i < |a| ensures a[i] == b[i] {
      assert Xor(a, x)[i] == Xor(b, x)[i];
    }
  }

  lemma ByteStepInjective(a: Register, b: Register, x: Octet)
    requires ByteStep(a, x) == ByteStep(b, x)
    ensures a == b
  {
    forall x: Register, y: Register | BitStep(x) == BitStep(y) ensures x == y { BitStepInjective(x, y); }
    IterateInjective(BitStep, MixIn(a, x), MixIn(b, x), 8);
    XorCancels(a, b, x + Zeros(24));
  }

  lemma ShiftedInjective(a: Register, b: Register, input: seq<Octet>)
    requires Shifted(a, input) == Shifted(b, input)
    ensures a == b
  {
    forall a: Register, b: Register, x: Octet | ByteStep(a, x) == ByteStep(b, x) ensures a == b {
      ByteStepInjective(a, b, x);
    }
    FoldInjective(ByteStep, a, b, input);
  }

  /** The difference of two registers after one byte each, and the two bytes it started from. */
  lemma DifferenceStep(s: Register, t: Register, x: Octet, y: Octet)
    ensures Xor(ByteStep(s, x), ByteStep(t, y)) == EightSteps(MixIn(Xor(s, t), Xor(x, y)))
  {
    MixInDistributes(s, t, x, y);
    EightStepsDistribute(MixIn(s, x), MixIn(t, y));
  }

  lemma MixInDistributes(s: Register, t: Register, x: Octet, y: Octet)
    ensures Xor(MixIn(s, x), MixIn(t, y)) == MixIn(Xor(s, t), Xor(x, y))
  {
    var left, right := Xor(MixIn(s, x), MixIn(t, y)), MixIn(Xor(s, t), Xor(x, y));
    forall i | 0 <= i < 32 ensures left[i] == right[i] {
      assert MixIn(s, x)[i] == (s[i] != (x + Zeros(24))[i]) && MixIn(t, y)[i] == (t[i] != (y + Zeros(24))[i]);
      assert right[i] == (Xor(s, t)[i] != (Xor(x, y) + Zeros(24))[i]);
    }
    assert left == right;
  }

  /** If the difference after a byte fits 24 bits, it is the earlier one without its low byte. */
  lemma DifferenceBack(d: Register, e: Octet, after: Register)
    requires after == EightSteps(MixIn(d, e))
    requires forall i :: 24 <= i < 32 ==> !after[i]
    ensures forall i :: 0 <= i < 32 ==> d[i] == if i < 8 then e[i] else after[i - 8]
  {
    StepsOnlyShift(MixIn(d, e), 8, after);
    forall i | 0 <= i < 32 ensures d[i] == if i < 8 then e[i] else after[i - 8] {
      assert MixIn(d, e)[i] == (d[i] != (e + Zeros(24))[i]);
    }
  }

  /** Registers made equal by at most four bytes differed exactly as those bytes do. */
  lemma {:induction false} WindowDifference(s: Register, t: Register, a: seq<Octet>, b: seq<Octet>)
    requires |a| == |b| <= 4 && Shifted(s, a) == Shifted(t, b)
    ensures forall i :: 0 <= i < 32 ==> Xor(s, t)[i] == (i / 8 < |a| && a[i / 8][i % 8] != b[i / 8][i % 8])
    decreases |a|
  {
    if a != [] {
      var s', t' := ByteStep(s, a[0]), ByteStep(t, b[0]);
      WindowDifference(s', t', a[1..], b[1..]);
      DifferenceStep(s, t, a[0], b[0]);
      DifferenceBack(Xor(s, t), Xor(a[0], b[0]), Xor(s', t'));
      WindowShift(Xor(s, t), Xor(s', t'), a, b);
    }
  }

  lemma WindowShift(x: Register, d: Register, a: seq<Octet>, b: seq<Octet>)
    requires 0 < |a| == |b| <= 4
    requires forall i :: 0 <= i < 32 ==> x[i] == if i < 8 then Xor(a[0], b[0])[i] else d[i - 8]
    requires forall i :: 0 <= i < 32 ==> d[i] == (i / 8 < |a| - 1 && a[1..][i / 8][i % 8] != b[1..][i / 8][i % 8])
    ensures forall i :: 0 <= i < 32 ==> x[i] == (i / 8 < |a| && a[i / 8][i % 8] != b[i / 8][i % 8])
  {
    forall i | 0 <= i < 32 ensures x[i] == (i / 8 < |a| && a[i / 8][i % 8] != b[i / 8][i % 8]) {
      if i >= 8 {
        assert (i - 8) / 8 == i / 8 - 1 && (i - 8) % 8 == i % 8;
      }
    }
  }

  lemma WindowInjective(s: Register, a: seq<Octet>, b: seq<Octet>)
    requires |a| == |b| <= 4 && Shifted(s, a) == Shifted(s, b)
    ensures a == b
  {
    WindowDifference(s, s, a, b);
    forall k | 0 <= k < |a| ensures a[k] == b[k] {
      forall i | 0 <= i < 8 ensures a[k][i] == b[k][i] {
        assert !Xor(s, s)[8 * k + i] && (8 * k + i) / 8 == k && (8 * k + i) % 8 == i;
      }
    }
  }

  lemma WindowDetected(before: seq<Octet>, a: seq<Octet>, b: seq<Octet>, after: seq<Octet>)
    requires |a| == |b| <= 4 && Crc(before + a + after) == Crc(before + b + after)
    ensures a == b
  {
    var s := Shifted(ALL_ONES, before);
    ShiftedParts(ALL_ONES, before, a, after);
    ShiftedParts(ALL_ONES, before, b, after);
    XorCancels(Shifted(ALL_ONES, before + a + after), Shifted(ALL_ONES, before + b + after), ALL_ONES);
    ShiftedInjective(Shifted(s, a), Shifted(s, b), after);
    WindowInjective(s, a, b);
  }

  lemma ShiftedParts(x: Register, before: seq<Octet>, a: seq<Octet>, after: seq<Octet>)
    ensures Shifted(x, before + a + after) == Shifted(Shifted(Shifted(x, before), a), after)
  {
    FoldAppend(ByteStep, x, before + a, after);
    FoldAppend(ByteStep, x, before, a);
  }

  lemma CutThree<T>(a: seq<T>, lo: nat, hi: nat)
    requires lo <= hi <= |a|
    ensures a == a[..lo] + a[lo..hi] + a[hi..]
  {
  }

  /** Equal-length inputs that differ, but only within four consecutive bytes, never share a CRC. */
  lemma FourByteDamageDetected(a: seq<Octet>, b: seq<Octet>, at: nat)
    requires |a| == |b| && a != b
    requires forall i :: 0 <= i < |a| && !(at <= i < at + 4) ==> a[i] == b[i]
    ensures Crc(a) != Crc(b)
  {
    var lo := if at < |a| then at else |a|;
    var hi := if at + 4 < |a| then at + 4 else |a|;
    CutThree(a, lo, hi);
    CutThree(b, lo, hi);
    assert a[..lo] == b[..lo];
    assert a[hi..] == b[hi..];
    if Crc(a) == Crc(b) {
      WindowDetected(a[..lo], a[lo..hi], b[lo..hi], a[hi..]);
    }
  }
}
