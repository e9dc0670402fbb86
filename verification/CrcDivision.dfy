/** The checksum as the standard defines it: the remainder of a long division of polynomials over two elements. */
module CrcDivision {
  import opened Common
  import opened Crc32
  import opened Iteration

  /** The exponents of the generator below the leading one, as section 3.4 of RFC 2083 lists them. */
  predicate Exponent(e: nat) {
    || e == 26 || e == 23 || e == 22 || e == 16 || e == 12 || e == 11 || e == 10 || e == 8 || e == 7 || e == 5 || e == 4
    || e == 2 || e == 1 || e == 0
  }

  /** The generator's coefficients from the 31st power down. */
  function Generator(): (r: seq<bool>)
    ensures |r| == 32
  {
    seq(32, i requires 0 <= i < 32 => Exponent(31 - i))
  }

  function One(b: bool): nat { if b then 1 else 0 }

  lemma OneMore(a: bool, rest: seq<bool>)
    ensures Value([a] + rest) == One(a) + 2 * Value(rest)
  {
    assert ([a] + rest)[1..] == rest;
  }

  /** Four coefficients and the value of those after them. */
  lemma FourMore(a: bool, b: bool, c: bool, d: bool, rest: seq<bool>)
    ensures Value([a, b, c, d] + rest) == One(a) + 2 * One(b) + 4 * One(c) + 8 * One(d) + 16 * Value(rest)
  {
    OneMore(d, rest);
    OneMore(c, [d] + rest);
    OneMore(b, [c] + ([d] + rest));
    OneMore(a, [b] + ([c] + ([d] + rest)));
    assert [a, b, c, d] + rest == [a] + ([b] + ([c] + ([d] + rest)));
  }

  lemma FourOf(bits: seq<bool>, i: nat)
    requires i + 4 <= |bits|
    ensures Value(bits[i..])
      == One(bits[i]) + 2 * One(bits[i + 1]) + 4 * One(bits[i + 2]) + 8 * One(bits[i + 3]) + 16 * Value(bits[i + 4..])
  {
    assert bits[i..] == [bits[i], bits[i + 1], bits[i + 2], bits[i + 3]] + bits[i + 4..];
    FourMore(bits[i], bits[i + 1], bits[i + 2], bits[i + 3], bits[i + 4..]);
  }

  /** The values of the last eight, sixteen, twenty-four and all coefficients of the generator. */
  lemma LastPowers()
    ensures Value(Generator()[24..]) == 0xed
  {
    var g := Generator();
    FourOf(g, 24);
    FourOf(g, 28);
    assert g[32..] == [];
  }

  lemma LowPowers()
    ensures Value(Generator()[16..]) == 0xedb8
  {
    LastPowers();
    FourOf(Generator(), 16);
    FourOf(Generator(), 20);
  }

  lemma HighPowers()
    ensures Value(Generator()[8..]) == 0xedb883
  {
    LowPowers();
    FourOf(Generator(), 8);
    FourOf(Generator(), 12);
  }

  lemma AlmostAllPowers()
    ensures Value(Generator()[4..]) == 0xedb8832
  {
    HighPowers();
    FourOf(Generator(), 4);
  }

  lemma AllPowers()
    ensures Value(Generator()) == 0xedb88320
  {
    AlmostAllPowers();
    FourOf(Generator(), 0);
    assert Generator()[0..] == Generator();
  }

  /** The register holds the generator's coefficients, that of the highest power in the lowest bit. */
  lemma FeedbackIsGenerator()
    ensures FEEDBACK == Generator()
  {
    AllPowers();
    ValueBits(Generator());
  }

  /** One bit shifted in: it decides with the register's lowest whether the generator is subtracted. */
  function BitIn(crc: Register, bit: bool): Register {
    Xor(ShiftRight(crc), Masked(crc[0] != bit))
  }

  /** The bits of a stretch of bytes, each from its lowest. */
  function BitsOf(input: seq<Octet>): seq<bool> {
    if input == [] then [] else input[0] + BitsOf(input[1..])
  }

  lemma {:induction false} FoldAppend<O>(step: (Register, O) -> Register, crc: Register, a: seq<O>, b: seq<O>)
    ensures Fold(step, crc, a + b) == Fold(step, Fold(step, crc, a), b)
    decreases |a|
  {
    if a == [] {
      assert a + b == b;
    } else {
      assert (a + b)[0] == a[0] && (a + b)[1..] == a[1..] + b;
      FoldAppend(step, step(crc, a[0]), a[1..], b);
    }
  }

  /** Bits that met the register at once come to bear one by one. */
  lemma OneBit(crc: Register, bits: seq<bool>)
    requires 0 < |bits| <= 32
    ensures BitStep(Xor(crc, bits + Zeros(32 - |bits|))) == Xor(BitIn(crc, bits[0]), bits[1..] + Zeros(33 - |bits|))
  {
    var mixed := Xor(crc, bits + Zeros(32 - |bits|));
    var a, b := BitStep(mixed), Xor(BitIn(crc, bits[0]), bits[1..] + Zeros(33 - |bits|));
    assert mixed[0] == (crc[0] != bits[0]);
    forall i | 0 <= i < 32 ensures a[i] == b[i] {
      assert ShiftRight(mixed)[i] == if i < 31 then mixed[i + 1] else false;
      assert ShiftRight(crc)[i] == if i < 31 then crc[i + 1] else false;
    }
  }

  lemma {:induction false} StepsFeed(crc: Register, bits: seq<bool>)
    requires |bits| <= 32
    ensures Iterate<Register>(BitStep, Xor(crc, bits + Zeros(32 - |bits|)), |bits|) == Fold(BitIn, crc, bits)
    decreases |bits|
  {
    if bits == [] {
      assert Xor(crc, [] + Zeros(32)) == crc;
    } else {
      OneBit(crc, bits);
      StepsFeed(BitIn(crc, bits[0]), bits[1..]);
    }
  }

  /** Shifting in bytes is shifting in their bits. */
  lemma {:induction false} ShiftedFeeds(crc: Register, input: seq<Octet>)
    ensures Shifted(crc, input) == Fold(BitIn, crc, BitsOf(input))
    decreases |input|
  {
    if input != [] {
      StepsFeed(crc, input[0]);
      ShiftedFeeds(ByteStep(crc, input[0]), input[1..]);
      FoldAppend(BitIn, crc, input[0], BitsOf(input[1..]));
    }
  }

  /** A polynomial with its first 32 coefficients changed by these. */
  function Onto(changes: seq<bool>, dividend: seq<bool>): (r: seq<bool>)
    requires |changes| == 32 <= |dividend|
    ensures |r| == |dividend|
  {
    Xor(changes, dividend[..32]) + dividend[32..]
  }

  lemma OntoAt(changes: seq<bool>, dividend: seq<bool>, i: nat)
    requires |changes| == 32 <= |dividend| && i < |dividend|
    ensures Onto(changes, dividend)[i] == if i < 32 then changes[i] != dividend[i] else dividend[i]
  {
  }

  lemma BitInAt(crc: Register, bit: bool, i: nat)
    requires i < 32
    ensures BitIn(crc, bit)[i] == ((i < 31 && crc[i + 1]) != (crc[0] != bit && Generator()[i]))
  {
    FeedbackIsGenerator();
    assert ShiftRight(crc)[i] == (i < 31 && crc[i + 1]);
  }

  /** One round of the division. */
  function Round(dividend: seq<bool>): (r: seq<bool>)
    requires |dividend| > 32
    ensures |r| == |dividend| - 1
  {
    if dividend[0] then Xor(dividend[1..33], Generator()) + dividend[33..] else dividend[1..]
  }

  /** The remainder of a polynomial, its coefficients from the highest power down, by long division: wherever the leading
      coefficient is one, the generator is subtracted. */
  function Remainder(dividend: seq<bool>): (r: seq<bool>)
    requires |dividend| >= 32
    ensures |r| == 32
    decreases |dividend|
  {
    if |dividend| == 32 then dividend else Remainder(Round(dividend))
  }

  lemma RoundAt(dividend: seq<bool>, i: nat)
    requires |dividend| > 32 && i < |dividend| - 1
    ensures Round(dividend)[i] == (dividend[i + 1] != (i < 32 && dividend[0] && Generator()[i]))
  {
  }

  lemma OntoShift(crc: Register, bits: seq<bool>)
    requires bits != []
    ensures Round(Onto(crc, bits + Zeros(32))) == Onto(BitIn(crc, bits[0]), bits[1..] + Zeros(32))
  {
    var d, e := Onto(crc, bits + Zeros(32)), Onto(BitIn(crc, bits[0]), bits[1..] + Zeros(32));
    forall i | 0 <= i < |e| ensures e[i] == Round(d)[i] { OntoShiftAt(crc, bits, i); }
  }

  lemma OntoShiftAt(crc: Register, bits: seq<bool>, i: nat)
    requires bits != [] && i < |bits| + 31
    ensures Round(Onto(crc, bits + Zeros(32)))[i] == Onto(BitIn(crc, bits[0]), bits[1..] + Zeros(32))[i]
  {
    var all, rest := bits + Zeros(32), bits[1..] + Zeros(32);
    RoundAt(Onto(crc, all), i);
    OntoAt(crc, all, 0);
    OntoAt(crc, all, i + 1);
    OntoAt(BitIn(crc, bits[0]), rest, i);
    if i < 32 { BitInAt(crc, bits[0], i); }
  }

  lemma {:induction false} FeedIsRemainder(crc: Register, bits: seq<bool>)
    ensures Fold(BitIn, crc, bits) == Remainder(Onto(crc, bits + Zeros(32)))
    decreases |bits|
  {
    if bits == [] {
      assert Onto(crc, [] + Zeros(32)) == crc;
    } else {
      OntoShift(crc, bits);
      FeedIsRemainder(BitIn(crc, bits[0]), bits[1..]);
    }
  }

  function Ones(): (r: seq<bool>)
    ensures |r| == 32 && forall i :: 0 <= i < 32 ==> r[i]
  {
    seq(32, _ => true)
  }

  lemma LowOnes()
    ensures Value(Ones()[16..]) == 0xffff
  {
    var g := Ones();
    FourOf(g, 16);
    FourOf(g, 20);
    FourOf(g, 24);
    FourOf(g, 28);
    assert g[32..] == [];
  }

  lemma HighOnes()
    ensures Value(Ones()[8..]) == 0xffffff
  {
    LowOnes();
    FourOf(Ones(), 8);
    FourOf(Ones(), 12);
  }

  lemma EveryOne()
    ensures Value(Ones()) == 0xffffffff
  {
    HighOnes();
    FourOf(Ones(), 0);
    FourOf(Ones(), 4);
    assert Ones()[0..] == Ones();
  }

  lemma AllOnes()
    ensures ALL_ONES == Ones()
  {
    EveryOne();
    ValueBits(Ones());
  }

  function Flipped(bits: seq<bool>): (r: seq<bool>)
    ensures |r| == |bits|
  {
    seq(|bits|, i requires 0 <= i < |bits| => !bits[i])
  }

  /** The standard's definition: the message times the 32nd power, its first 32 coefficients flipped, is divided by the
      generator, and the remainder is flipped. */
  lemma CrcIsRemainder(input: seq<Octet>)
    ensures var dividend := BitsOf(input) + Zeros(32);
      Crc(input) == Flipped(Remainder(Flipped(dividend[..32]) + dividend[32..]))
  {
    ShiftedFeeds(ALL_ONES, input);
    FeedIsRemainder(ALL_ONES, BitsOf(input));
    var dividend := BitsOf(input) + Zeros(32);
    OnesFlip(dividend[..32]);
    OnesFlip(Remainder(Onto(ALL_ONES, dividend)));
  }

  lemma OnesFlip(bits: seq<bool>)
    requires |bits| == 32
    ensures Xor(ALL_ONES, bits) == Xor(bits, ALL_ONES) == Flipped(bits)
  {
    AllOnes();
    assert forall i :: 0 <= i < 32 ==> ALL_ONES[i];
  }
}
