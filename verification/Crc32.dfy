/**
 The checksum over tensor payloads: the reflected CRC-32 of section 8 of RFC 1952,
 computed one bit at a time. The register step is a linear bijection, so an error
 confined to four consecutive bytes always shows.
 */
module Crc32 {
  import opened Prelude

  const POLYNOMIAL: bv32 := 0xEDB8_8320

  // Bit operations by name, so that proofs above the bit level need not look inside them.

  function Xor(a: bv32, b: bv32): bv32 {
    a ^ b
  }

  function Invert(a: bv32): bv32 {
    !a
  }

  function Widen(b: bv8): bv32 {
    b as bv32
  }

  function Half(a: bv32): bv32 {
    a >> 1
  }

  function Up(a: bv32): bv32 {
    a << 8
  }

  predicate Even(a: bv32) {
    a & 1 == 0
  }

  function Step(crc: bv32): bv32 {
    var mask := !(crc & 1) + 1;
    (crc >> 1) ^ (POLYNOMIAL & mask)
  }

  function Steps(crc: bv32, n: nat): bv32
    decreases n
  {
    if n == 0 then crc else Steps(Step(crc), n - 1)
  }

  /** The register after the bytes of `data`. */
  function Feed(crc: bv32, data: Bytes): bv32
    decreases |data|
  {
    if data == [] then crc else Feed(Steps(Xor(crc, Widen(data[0])), 8), data[1..])
  }

  function Checksum(data: Bytes): bv32 {
    Invert(Feed(0xFFFF_FFFF, data))
  }

  lemma {:induction false} StepByLowBit(crc: bv32)
    ensures crc & 1 == 0 ==> Step(crc) == crc >> 1
    ensures crc & 1 == 1 ==> Step(crc) == (crc >> 1) ^ POLYNOMIAL
    ensures crc & 1 == 0 || crc & 1 == 1
  {
  }

  lemma {:induction false} StepInjective(a: bv32, b: bv32)
    requires Step(a) == Step(b)
    ensures a == b
  {
  }

  lemma {:induction false} ShiftXor(a: bv32, b: bv32)
    ensures (a ^ b) >> 1 == (a >> 1) ^ (b >> 1)
    ensures (a ^ b) & 1 == (a & 1) ^ (b & 1)
  {
  }

  lemma {:induction false} XorSwap(a: bv32, b: bv32, p: bv32)
    ensures (a ^ p) ^ (b ^ p) == a ^ b
    ensures (a ^ p) ^ b == (a ^ b) ^ p
    ensures a ^ (b ^ p) == (a ^ b) ^ p
  {
  }

  lemma {:induction false} StepLinear(a: bv32, b: bv32)
    ensures Step(Xor(a, b)) == Xor(Step(a), Step(b))
  {
    hide Step;
    StepByLowBit(a);
    StepByLowBit(b);
    StepByLowBit(a ^ b);
    ShiftXor(a, b);
    XorSwap(a >> 1, b >> 1, POLYNOMIAL);
  }

  lemma {:induction false} StepsInjective(a: bv32, b: bv32, n: nat)
    requires Steps(a, n) == Steps(b, n)
    ensures a == b
    decreases n
  {
    hide Step;
    if n > 0 {
      StepsInjective(Step(a), Step(b), n - 1);
      StepInjective(a, b);
    }
  }

  lemma {:induction false} StepsLinear(a: bv32, b: bv32, n: nat)
    ensures Steps(Xor(a, b), n) == Xor(Steps(a, n), Steps(b, n))
    decreases n
  {
    hide Step, Xor;
    if n > 0 {
      StepLinear(a, b);
      StepsLinear(Step(a), Step(b), n - 1);
    }
  }

  lemma {:induction false} StepsAdd(a: bv32, m: nat, n: nat)
    ensures Steps(a, m + n) == Steps(Steps(a, m), n)
    decreases m
  {
    hide Step;
    if m > 0 {
      StepsAdd(Step(a), m - 1, n);
    }
  }

  lemma {:induction false} FeedAppend(crc: bv32, p: Bytes, q: Bytes)
    ensures Feed(crc, p + q) == Feed(Feed(crc, p), q)
    decreases |p|
  {
    hide Steps, Xor;
    if p == [] {
      assert p + q == q;
    } else {
      assert (p + q)[1..] == p[1..] + q;
      FeedAppend(Steps(Xor(crc, Widen(p[0])), 8), p[1..], q);
    }
  }

  /** Feeding the same bytes keeps different registers different. */
  lemma {:induction false} FeedInjective(a: bv32, b: bv32, data: Bytes)
    requires Feed(a, data) == Feed(b, data)
    ensures a == b
    decreases |data|
  {
    hide Steps, Xor;
    if data != [] {
      var x := Widen(data[0]);
      FeedInjective(Steps(Xor(a, x), 8), Steps(Xor(b, x), 8), data[1..]);
      StepsInjective(Xor(a, x), Xor(b, x), 8);
      XorCancels(a, b, x);
    }
  }

  lemma {:induction false} XorCancels(a: bv32, b: bv32, x: bv32)
    requires Xor(a, x) == Xor(b, x)
    ensures a == b
  {
    assert a == (a ^ x) ^ x;
  }

  /** A word one byte longer: the new byte goes in at the low end. */
  function Push(b: bv8, w: bv32): bv32 {
    Xor(Widen(b), Up(w))
  }

  /** Up to four bytes as one little-endian word. */
  function Word(s: Bytes): bv32 {
    if s == [] then 0 else Push(s[0], Word(s[1..]))
  }

  /** The word fits in `n` bytes. */
  predicate Fits(w: bv32, n: nat) {
    if n == 0 then w == 0
    else if n == 1 then w <= 0xFF
    else if n == 2 then w <= 0xFFFF
    else if n == 3 then w <= 0xFF_FFFF
    else true
  }

  lemma {:induction false} WordFits(s: Bytes)
    requires |s| <= 4
    ensures Fits(Word(s), |s|)
  {
    if s != [] {
      WordFits(s[1..]);
      PushFits(s[0], Word(s[1..]), |s| - 1);
    }
  }

  lemma {:induction false} PushFits(b: bv8, w: bv32, n: nat)
    requires Fits(w, n)
    ensures Fits(Push(b, w), n + 1)
  {
  }

  lemma {:induction false} PushLow(b: bv8, w: bv32)
    ensures Push(b, w) & 0xFF == Widen(b)
  {
  }

  lemma {:induction false} PushHigh(b: bv8, w: bv32)
    requires Fits(w, 3)
    ensures Push(b, w) >> 8 == w
  {
  }

  lemma {:induction false} WidenInjective(b: bv8, b': bv8)
    requires Widen(b) == Widen(b')
    ensures b == b'
  {
    assert Widen(b) as bv8 == b && Widen(b') as bv8 == b';
  }

  lemma {:induction false} PushInjective(b: bv8, w: bv32, b': bv8, w': bv32)
    requires Fits(w, 3) && Fits(w', 3) && Push(b, w) == Push(b', w')
    ensures b == b' && w == w'
  {
    PushLow(b, w);
    PushLow(b', w');
    PushHigh(b, w);
    PushHigh(b', w');
    hide Push, Widen, Fits;
    WidenInjective(b, b');
  }

  lemma {:induction false} FitsMore(w: bv32, n: nat)
    requires n <= 3 && Fits(w, n)
    ensures Fits(w, 3)
  {
  }

  lemma {:induction false} WordInjective(s: Bytes, t: Bytes)
    requires |s| == |t| <= 4 && Word(s) == Word(t)
    ensures s == t
  {
    hide Push, Fits;
    if s != [] {
      var n := |s| - 1;
      WordFits(s[1..]);
      WordFits(t[1..]);
      FitsMore(Word(s[1..]), n);
      FitsMore(Word(t[1..]), n);
      PushInjective(s[0], Word(s[1..]), t[0], Word(t[1..]));
      WordInjective(s[1..], t[1..]);
      assert s == [s[0]] + s[1..] && t == [t[0]] + t[1..];
    }
  }

  lemma {:induction false} StepHalves(x: bv32)
    requires Even(x)
    ensures Step(x) == Half(x)
  {
    StepByLowBit(x);
  }

  lemma {:induction false} EightHalves(w: bv32)
    requires Fits(w, 3)
    ensures Even(Up(w)) && Even(Half(Up(w))) && Even(Half(Half(Up(w)))) && Even(Half(Half(Half(Up(w)))))
    ensures var x := Half(Half(Half(Half(Up(w)))));
            && Even(x) && Even(Half(x)) && Even(Half(Half(x))) && Even(Half(Half(Half(x))))
            && Half(Half(Half(Half(x)))) == w
  {
  }

  /** Eight steps move a word that starts above the low byte down by one byte. */
  lemma {:induction false} ShiftedDown(w: bv32)
    requires Fits(w, 3)
    ensures Steps(Up(w), 8) == w
  {
    EightHalves(w);
    hide Step, Half, Even, Up, Fits;
    var x0 := Up(w);
    StepHalves(x0);
    var x1 := Half(x0);
    StepHalves(x1);
    var x2 := Half(x1);
    StepHalves(x2);
    var x3 := Half(x2);
    StepHalves(x3);
    var x4 := Half(x3);
    StepHalves(x4);
    var x5 := Half(x4);
    StepHalves(x5);
    var x6 := Half(x5);
    StepHalves(x6);
    var x7 := Half(x6);
    StepHalves(x7);
    assert Steps(x7, 1) == Steps(w, 0);
    assert Steps(x5, 3) == Steps(x6, 2) == Steps(x7, 1);
    assert Steps(x3, 5) == Steps(x4, 4) == Steps(x5, 3);
    assert Steps(x1, 7) == Steps(x2, 6) == Steps(x3, 5);
  }

  lemma {:induction false} XorPush(crc: bv32, b: bv8, w: bv32)
    ensures Xor(crc, Push(b, w)) == Xor(Xor(crc, Widen(b)), Up(w))
  {
    XorAssociates(crc, Widen(b), Up(w));
    hide Xor, Widen, Up;
  }

  lemma {:induction false} XorAssociates(a: bv32, b: bv32, c: bv32)
    ensures Xor(a, Xor(b, c)) == Xor(Xor(a, b), c)
  {
  }

  /** Feeding up to four bytes is mixing them in as one word and then stepping through all their bits. */
  lemma {:induction false} FeedIsOneWord(crc: bv32, s: Bytes)
    requires |s| <= 4
    ensures Feed(crc, s) == Steps(Xor(crc, Word(s)), 8 * |s|)
    decreases |s|
  {
    if s == [] {
      assert Xor(crc, 0) == crc;
    } else {
      var b, rest := s[0], s[1..];
      var w := Word(rest);
      var next := Steps(Xor(crc, Widen(b)), 8);
      FeedIsOneWord(next, rest);
      WordFits(rest);
      FitsMore(w, |rest|);
      ShiftedDown(w);
      XorPush(crc, b, w);
      hide Xor, Push, Fits, Step, Widen, Up;
      StepsLinear(Xor(crc, Widen(b)), Up(w), 8);
      StepsAdd(Xor(crc, Word(s)), 8, 8 * |rest|);
    }
  }

  /** Payloads that differ, but only within four consecutive bytes, have different checksums, at any length. */
  lemma {:induction false} BurstIsDetected(before: Bytes, s: Bytes, t: Bytes, after: Bytes)
    requires |s| == |t| <= 4 && s != t
    ensures Checksum(before + s + after) != Checksum(before + t + after)
  {
    hide Xor, Step, Steps, Word, Feed, Invert;
    var crc := Feed(0xFFFF_FFFF, before);
    FeedAppend(0xFFFF_FFFF, before + s, after);
    FeedAppend(0xFFFF_FFFF, before, s);
    FeedAppend(0xFFFF_FFFF, before + t, after);
    FeedAppend(0xFFFF_FFFF, before, t);
    if Checksum(before + s + after) == Checksum(before + t + after) {
      NotInjective(Feed(Feed(crc, s), after), Feed(Feed(crc, t), after));
      FeedInjective(Feed(crc, s), Feed(crc, t), after);
      FeedIsOneWord(crc, s);
      FeedIsOneWord(crc, t);
      StepsInjective(Xor(crc, Word(s)), Xor(crc, Word(t)), 8 * |s|);
      XorCommutes(crc, Word(s));
      XorCommutes(crc, Word(t));
      XorCancels(Word(s), Word(t), crc);
      WordInjective(s, t);
    }
  }

  lemma {:induction false} NotInjective(a: bv32, b: bv32)
    requires Invert(a) == Invert(b)
    ensures a == b
  {
  }

  lemma {:induction false} XorCommutes(a: bv32, b: bv32)
    ensures Xor(a, b) == Xor(b, a)
  {
  }

  /** In particular, two payloads of equal length that differ in exactly one byte never collide. */
  lemma {:induction false} OneByteIsDetected(p: Bytes, q: Bytes, i: nat)
    requires |p| == |q| && i < |p| && p[i] != q[i]
    requires forall j | 0 <= j < |p| && j != i :: p[j] == q[j]
    ensures Checksum(p) != Checksum(q)
  {
    hide Checksum;
    assert p == p[..i] + [p[i]] + p[i + 1..];
    assert q == p[..i] + [q[i]] + p[i + 1..];
    BurstIsDetected(p[..i], [p[i]], [q[i]], p[i + 1..]);
  }

  /** The register's first eight steps. */
  lemma {:induction false} EightSteps()
    ensures Steps(0xFFFF_FFFF, 8) == 0x2DFD_1072
  {
    assert Step(0xFFFF_FFFF) == 0x9247_7CDF && Step(0x9247_7CDF) == 0xA49B_3D4F;
    assert Step(0xA49B_3D4F) == 0xBFF5_1D87 && Step(0xBFF5_1D87) == 0xB242_0DE3;
    assert Step(0xB242_0DE3) == 0xB499_85D1 && Step(0xB499_85D1) == 0xB7F4_41C8;
    assert Step(0xB7F4_41C8) == 0x5BFA_20E4 && Step(0x5BFA_20E4) == 0x2DFD_1072;
    assert Steps(0x5BFA_20E4, 1) == 0x2DFD_1072;
    assert Steps(0xB499_85D1, 3) == Steps(0xB7F4_41C8, 2) == Steps(0x5BFA_20E4, 1);
    assert Steps(0xBFF5_1D87, 5) == Steps(0xB242_0DE3, 4) == Steps(0xB499_85D1, 3);
    assert Steps(0x9247_7CDF, 7) == Steps(0xA49B_3D4F, 6) == Steps(0xBFF5_1D87, 5);
  }

  /** The published CRC-32 of a single zero byte. */
  lemma {:induction false} ZeroByteChecksum(data: Bytes)
    requires |data| == 1 && data[0] == 0
    ensures Checksum(data) == 0xD202_EF8D
  {
    EightSteps();
    assert data[1..] == [];
    assert Xor(0xFFFF_FFFF, Widen(data[0])) == 0xFFFF_FFFF;
    assert Feed(0xFFFF_FFFF, data) == Feed(0x2DFD_1072, data[1..]);
  }

  method Crc32Ieee(data: Bytes) returns (checksum: bv32)
    ensures checksum == Checksum(data)
  {
    var crc: bv32 := 0xFFFF_FFFF;
    for n := 0 to |data|
      invariant Feed(crc, data[n..]) == Feed(0xFFFF_FFFF, data)
    {
      hide Step, Xor, Widen;
      assert data[n..][1..] == data[n + 1..];
      ghost var mixed := Xor(crc, Widen(data[n]));
      crc := Xor(crc, Widen(data[n]));
      for bit := 0 to 8
        invariant Steps(crc, 8 - bit) == Steps(mixed, 8)
      {
        crc := Step(crc);
      }
    }
    assert data[|data|..] == [];
    checksum := Invert(crc);
  }
}
