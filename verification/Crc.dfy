/** The CCITT frame check sequence (RFC 1662, Appendix C.2) and what it detects. */
module Crc {
  import opened Octets

  type Fcs = bv16

  const PRESET: Fcs := 0xffff
  const GOOD: Fcs := 0xf0b8

  function Low(crc: Fcs): Octet {
    (crc & 0xff) as bv8
  }

  function High(crc: Fcs): Octet {
    (crc >> 8) as bv8
  }

  function Xor(a: Octet, b: Octet): Octet {
    a ^ b
  }

  function Mix(a: Octet): Octet {
    a ^ (a << 4)
  }

  function Combine(b: Octet, high: Octet): Fcs {
    (((b as bv16) << 8) | (high as bv16)) ^ ((b >> 4) as bv16) ^ ((b as bv16) << 3)
  }

  function Update(crc: Fcs, octet: Octet): Fcs {
    Combine(Mix(Xor(octet, Low(crc))), High(crc))
  }

  /** The check sequence of s, started from crc. */
  function Fold(crc: Fcs, s: seq<Octet>): Fcs {
    if s == [] then crc else Update(Fold(crc, s[..|s| - 1]), s[|s| - 1])
  }

  /** What the transmitter appends: the complement, least significant octet first. */
  function Trailer(crc: Fcs): seq<Octet> {
    [Low(!crc), High(!crc)]
  }

  // ---------- the two halves of a check sequence ----------

  function Xor16(c: Fcs, d: Fcs): Fcs {
    c ^ d
  }

  function HighPart(b: Octet): Octet {
    b ^ (b >> 5)
  }

  function LowPart(b: Octet): Octet {
    (b >> 4) ^ (b << 3)
  }

  lemma HighOfCombine(b: Octet, h: Octet)
    ensures High(Combine(b, h)) == HighPart(b)
  {
  }

  lemma LowOfCombine(b: Octet, h: Octet)
    ensures Low(Combine(b, h)) == Xor(LowPart(b), h)
  {
  }

  lemma SplitInjective(c: Fcs, d: Fcs)
    requires Low(c) == Low(d) && High(c) == High(d)
    ensures c == d
  {
  }

  lemma SplitLinear(c: Fcs, d: Fcs)
    ensures Low(Xor16(c, d)) == Xor(Low(c), Low(d))
    ensures High(Xor16(c, d)) == Xor(High(c), High(d))
  {
  }

  lemma PartsLinear(a: Octet, b: Octet)
    ensures Mix(Xor(a, b)) == Xor(Mix(a), Mix(b))
    ensures HighPart(Xor(a, b)) == Xor(HighPart(a), HighPart(b))
    ensures LowPart(Xor(a, b)) == Xor(LowPart(a), LowPart(b))
  {
  }

  lemma XorLaws(a: Octet, b: Octet, c: Octet)
    ensures Xor(Xor(a, b), c) == Xor(a, Xor(b, c))
    ensures Xor(a, b) == Xor(b, a)
  {
  }

  lemma Shuffle(a: Octet, b: Octet, c: Octet, d: Octet)
    ensures Xor(Xor(a, b), Xor(c, d)) == Xor(Xor(a, c), Xor(b, d))
  {
    hide *;
    XorLaws(a, b, Xor(c, d));
    XorLaws(b, c, d);
    XorLaws(c, b, d);
    XorLaws(a, c, Xor(b, d));
  }

  lemma XorInjective(a: Octet, b: Octet, c: Octet)
    requires Xor(c, a) == Xor(c, b)
    ensures a == b
  {
  }

  lemma PartsInjective(a: Octet, b: Octet)
    ensures Mix(a) == Mix(b) ==> a == b
    ensures HighPart(a) == HighPart(b) ==> a == b
  {
  }

  // ---------- one octet: linear, and loses nothing ----------

  lemma CombineLinear(a: Octet, h: Octet, b: Octet, k: Octet)
    ensures Combine(Xor(a, b), Xor(h, k)) == Xor16(Combine(a, h), Combine(b, k))
  {
    hide *;
    var c, d := Combine(Xor(a, b), Xor(h, k)), Xor16(Combine(a, h), Combine(b, k));
    SplitLinear(Combine(a, h), Combine(b, k));
    HighOfCombine(a, h); HighOfCombine(b, k); HighOfCombine(Xor(a, b), Xor(h, k));
    LowOfCombine(a, h); LowOfCombine(b, k); LowOfCombine(Xor(a, b), Xor(h, k));
    PartsLinear(a, b);
    Shuffle(LowPart(a), LowPart(b), h, k);
    SplitInjective(c, d);
  }

  lemma UpdateLinear(c: Fcs, o: Octet, d: Fcs, p: Octet)
    ensures Update(Xor16(c, d), Xor(o, p)) == Xor16(Update(c, o), Update(d, p))
  {
    hide Low, High, Mix, Combine, Xor, Xor16;
    SplitLinear(c, d);
    Shuffle(o, p, Low(c), Low(d));
    PartsLinear(Xor(o, Low(c)), Xor(p, Low(d)));
    CombineLinear(Mix(Xor(o, Low(c))), High(c), Mix(Xor(p, Low(d))), High(d));
  }

  lemma CombineInjective(a: Octet, h: Octet, b: Octet, k: Octet)
    requires Combine(a, h) == Combine(b, k)
    ensures a == b && h == k
  {
  }

  lemma UpdateInjective(c: Fcs, d: Fcs, o: Octet)
    requires Update(c, o) == Update(d, o)
    ensures c == d
  {
    hide Low, High, Mix, Combine, Xor;
    CombineInjective(Mix(Xor(o, Low(c))), High(c), Mix(Xor(o, Low(d))), High(d));
    PartsInjective(Xor(o, Low(c)), Xor(o, Low(d)));
    XorInjective(Low(c), Low(d), o);
    SplitInjective(c, d);
  }

  lemma UpdatePairInjective(c: Fcs, a: Octet, b: Octet, a': Octet, b': Octet)
    requires Update(Update(c, a), b) == Update(Update(c, a'), b')
    ensures a == a' && b == b'
  {
    hide Low, High, Mix, Combine, Xor;
    var d, d' := Update(c, a), Update(c, a');
    CombineInjective(Mix(Xor(b, Low(d))), High(d), Mix(Xor(b', Low(d'))), High(d'));
    HighOfCombine(Mix(Xor(a, Low(c))), High(c));
    HighOfCombine(Mix(Xor(a', Low(c))), High(c));
    PartsInjective(Mix(Xor(a, Low(c))), Mix(Xor(a', Low(c))));
    PartsInjective(Xor(a, Low(c)), Xor(a', Low(c)));
    XorLaws(a, Low(c), a); XorLaws(a', Low(c), a');
    XorInjective(a, a', Low(c));
    PartsInjective(Xor(b, Low(d)), Xor(b', Low(d)));
    XorLaws(b, Low(d), b); XorLaws(b', Low(d), b');
    XorInjective(b, b', Low(d));
  }

  lemma Residue(c: Fcs)
    ensures Update(Update(c, Low(!c)), High(!c)) == GOOD
  {
  }

  lemma OnlyTrailerIsGood(c: Fcs, a: Octet, b: Octet)
    ensures Update(Update(c, a), b) == GOOD <==> [a, b] == Trailer(c)
  {
    hide Update, Low, High;
    Residue(c);
    if Update(Update(c, a), b) == GOOD {
      UpdatePairInjective(c, a, b, Low(!c), High(!c));
    }
  }

  lemma OneOctetNeverGood(o: Octet)
    ensures Update(PRESET, o) != GOOD
  {
  }

  // ---------- whole sequences ----------

  lemma {:induction false} FoldConcat(c: Fcs, s: seq<Octet>, t: seq<Octet>)
    ensures Fold(c, s + t) == Fold(Fold(c, s), t)
  {
    hide Update;
    if t == [] {
      assert s + t == s;
    } else {
      assert (s + t)[..|s + t| - 1] == s + t[..|t| - 1];
      FoldConcat(c, s, t[..|t| - 1]);
    }
  }

  lemma FoldOne(c: Fcs, o: Octet)
    ensures Fold(c, [o]) == Update(c, o)
  {
  }

  lemma FoldPair(c: Fcs, s: seq<Octet>)
    requires |s| >= 2
    ensures Fold(c, s) == Update(Update(Fold(c, s[..|s| - 2]), s[|s| - 2]), s[|s| - 1])
  {
    hide Update;
    var t := s[..|s| - 1];
    assert t[..|t| - 1] == s[..|s| - 2];
  }

  /** The check the receiver makes is exact: the good value comes out for the complemented
      sequence of everything before it, low octet first, and for nothing else. */
  lemma GoodExactly(s: seq<Octet>)
    ensures Fold(PRESET, s) == GOOD
       <==> |s| >= 2 && s[|s| - 2..] == Trailer(Fold(PRESET, s[..|s| - 2]))
  {
    hide Update, Trailer;
    if |s| >= 2 {
      FoldPair(PRESET, s);
      OnlyTrailerIsGood(Fold(PRESET, s[..|s| - 2]), s[|s| - 2], s[|s| - 1]);
      assert s[|s| - 2..] == [s[|s| - 2], s[|s| - 1]];
    } else if |s| == 1 {
      OneOctetNeverGood(s[0]);
      assert Fold(PRESET, s[..0]) == PRESET;
    }
  }

  lemma {:induction false} FoldInjective(c: Fcs, d: Fcs, s: seq<Octet>)
    requires Fold(c, s) == Fold(d, s)
    ensures c == d
  {
    hide Update;
    if s == [] {
    } else {
      var t := s[..|s| - 1];
      UpdateInjective(Fold(c, t), Fold(d, t), s[|s| - 1]);
      FoldInjective(c, d, t);
    }
  }

  /** The octetwise exclusive or of two sequences. */
  function Difference(s: seq<Octet>, t: seq<Octet>): (d: seq<Octet>)
    requires |s| == |t|
    ensures |d| == |s|
  {
    seq(|s|, i requires 0 <= i < |s| => Xor(s[i], t[i]))
  }

  lemma {:induction false} FoldLinear(c: Fcs, s: seq<Octet>, d: Fcs, t: seq<Octet>)
    requires |s| == |t|
    ensures Fold(Xor16(c, d), Difference(s, t)) == Xor16(Fold(c, s), Fold(d, t))
  {
    hide Update, Xor, Xor16;
    if s == [] {
    } else {
      var n := |s| - 1;
      assert Difference(s, t)[..n] == Difference(s[..n], t[..n]);
      FoldLinear(c, s[..n], d, t[..n]);
      UpdateLinear(Fold(c, s[..n]), s[n], Fold(d, t[..n]), t[n]);
    }
  }

  // ---------- bursts of up to sixteen bits ----------

  /** Bits k to k + 15, in transmission order, of three octets: the first octet keeps only its
      bits from k up, the last only its bits below k. */
  predicate InWindow(first: Octet, last: Octet, k: Octet) {
    k <= 8 && (first >> k) << k == first && last >> k == 0
  }

  lemma SelfXor(c: Fcs, a: Octet, b: Octet)
    ensures Xor16(c, c) == 0
    ensures Xor(a, b) == 0 <==> a == b
  {
  }

  /** Three octets that leave a zero register at zero are a multiple of the generator, and
      the last of them follows from the first. */
  lemma ZeroTriple(a: Octet, b: Octet, e: Octet)
    requires Update(Update(Update(0, a), b), e) == 0
    ensures b == Low(Update(0, a)) && e == High(Combine(Mix(a), 0))
  {
  }

  lemma WindowExcludesMultiples(a: Octet, e: Octet, k: Octet)
    requires InWindow(a, e, k) && e == High(Combine(Mix(a), 0))
    ensures a == 0 && e == 0
  {
  }

  lemma ShortBurstNeverZero(d: seq<Octet>, k: Octet)
    requires |d| == 3 && InWindow(d[0], d[2], k)
    requires Fold(0, d) == 0
    ensures d == [0, 0, 0]
  {
    hide Combine, Mix, Low, High, InWindow, Update;
    FoldPair(0, d);
    assert d[..1][..0] == [];
    assert Fold(0, d[..1]) == Update(0, d[0]);
    ZeroTriple(d[0], d[1], d[2]);
    WindowExcludesMultiples(d[0], d[2], k);
    ZeroUpdate();
  }

  lemma ZeroUpdate()
    ensures Low(Update(0, 0)) == 0
  {
  }

  /** Whatever follows a difference cannot hide it from the check sequence. */
  lemma SuffixKeepsDifference(c: Fcs, p: seq<Octet>, x: seq<Octet>, y: seq<Octet>, z: seq<Octet>)
    requires Fold(c, p + x + z) == Fold(c, p + y + z)
    ensures Fold(Fold(c, p), x) == Fold(Fold(c, p), y)
  {
    hide Fold;
    FoldConcat(c, p + x, z);
    FoldConcat(c, p + y, z);
    FoldInjective(Fold(c, p + x), Fold(c, p + y), z);
    FoldConcat(c, p, x);
    FoldConcat(c, p, y);
  }

  lemma BurstChangesFold(c: Fcs, x: seq<Octet>, y: seq<Octet>, k: Octet)
    requires |x| == |y| == 3 && InWindow(Xor(x[0], y[0]), Xor(x[2], y[2]), k)
    requires Fold(c, x) == Fold(c, y)
    ensures x == y
  {
    hide Fold, Xor, Xor16, InWindow;
    FoldOfDifference(c, x, y);
    SelfXor(Fold(c, x), 0, 0);
    ShortBurstNeverZero(Difference(x, y), k);
    forall j | 0 <= j < 3 ensures x[j] == y[j] {
      assert Difference(x, y)[j] == Xor(x[j], y[j]);
      SelfXor(0, x[j], y[j]);
    }
  }

  /** Frames of equal length whose differences fit in sixteen consecutive bits never both
      pass the check, wherever in the frame the burst sits. */
  lemma BurstsDetected(s: seq<Octet>, t: seq<Octet>, i: nat, k: Octet)
    requires |s| == |t| && i + 3 <= |s|
    requires s[..i] == t[..i] && s[i + 3..] == t[i + 3..]
    requires InWindow(Xor(s[i], t[i]), Xor(s[i + 2], t[i + 2]), k)
    requires Fold(PRESET, s) == Fold(PRESET, t) == GOOD
    ensures s == t
  {
    hide Fold, Xor, InWindow;
    var p, x, y, z := s[..i], s[i..i + 3], t[i..i + 3], s[i + 3..];
    assert s == p + x + z && t == p + y + z;
    SuffixKeepsDifference(PRESET, p, x, y, z);
    BurstChangesFold(Fold(PRESET, p), x, y, k);
  }

  // ---------- odd numbers of flipped bits ----------

  /** The number of one bits in an octet. */
  function Ones(o: Octet): (n: nat)
  {
    (o & 1) as int + ((o >> 1) & 1) as int + ((o >> 2) & 1) as int + ((o >> 3) & 1) as int +
    ((o >> 4) & 1) as int + ((o >> 5) & 1) as int + ((o >> 6) & 1) as int + ((o >> 7) & 1) as int
  }

  function TotalOnes(s: seq<Octet>): nat {
    if s == [] then 0 else TotalOnes(s[..|s| - 1]) + Ones(s[|s| - 1])
  }

  function Shift4(o: Octet): Octet {
    o ^ (o >> 4)
  }

  function Shift2(o: Octet): Octet {
    o ^ (o >> 2)
  }

  function Shift1(o: Octet): Octet {
    (o ^ (o >> 1)) & 1
  }

  /** One when an octet has an odd number of one bits. */
  function Parity(o: Octet): Octet {
    Shift1(Shift2(Shift4(o)))
  }

  lemma ParityIsOnes(o: Octet)
    ensures Parity(o) as int == Ones(o) % 2
  {
  }

  lemma ShiftsLinear(a: Octet, b: Octet)
    ensures Shift4(Xor(a, b)) == Xor(Shift4(a), Shift4(b))
    ensures Shift2(Xor(a, b)) == Xor(Shift2(a), Shift2(b))
    ensures Shift1(Xor(a, b)) == Xor(Shift1(a), Shift1(b))
  {
  }

  lemma ParityLinear(a: Octet, b: Octet)
    ensures Parity(Xor(a, b)) == Xor(Parity(a), Parity(b))
  {
    hide Xor, Shift4, Shift2, Shift1;
    ShiftsLinear(a, b);
    ShiftsLinear(Shift4(a), Shift4(b));
    ShiftsLinear(Shift2(Shift4(a)), Shift2(Shift4(b)));
  }

  function Parity16(c: Fcs): Octet {
    Xor(Parity(High(c)), Parity(Low(c)))
  }

  lemma ParityOfParts(a: Octet)
    ensures Xor(Parity(HighPart(Mix(a))), Parity(LowPart(Mix(a)))) == Parity(a)
  {
  }

  lemma ParityOfUpdate(c: Fcs, o: Octet)
    ensures Parity16(Update(c, o)) == Xor(Parity16(c), Parity(o))
  {
    hide Xor, Low, High, Mix, Combine, Parity, HighPart, LowPart;
    var x := Xor(o, Low(c));
    var p := Parity(LowPart(Mix(x)));
    HighOfCombine(Mix(x), High(c));
    LowOfCombine(Mix(x), High(c));
    ParityLinear(LowPart(Mix(x)), High(c));
    XorLaws(Parity(HighPart(Mix(x))), p, Parity(High(c)));
    ParityOfParts(x);
    ParityLinear(o, Low(c));
    XorLaws(Parity(o), Parity(Low(c)), Parity(High(c)));
    XorLaws(Parity(Low(c)), Parity(High(c)), 0);
    XorLaws(Parity(o), Parity16(c), 0);
  }

  lemma XorOfBits(a: Octet, b: Octet)
    requires a <= 1 && b <= 1
    ensures Xor(a, b) <= 1 && Xor(a, b) as int == (a as int + b as int) % 2
  {
  }

  lemma ParityIsBit(o: Octet)
    ensures Parity(o) <= 1
  {
  }

  lemma Parity16IsBit(c: Fcs)
    ensures Parity16(c) <= 1
  {
  }

  lemma ParityStep(c: Fcs, o: Octet)
    ensures Parity16(Update(c, o)) as int == (Parity16(c) as int + Ones(o)) % 2
  {
    hide *;
    ParityOfUpdate(c, o);
    Parity16IsBit(c);
    ParityIsBit(o);
    ParityIsOnes(o);
    XorOfBits(Parity16(c), Parity(o));
  }

  lemma {:induction false} ParityOfFold(c: Fcs, s: seq<Octet>)
    ensures Parity16(Fold(c, s)) as int == (Parity16(c) as int + TotalOnes(s)) % 2
  {
    hide Update, Parity16, Ones;
    if s == [] {
      Parity16IsBit(c);
    } else {
      var n := |s| - 1;
      ParityOfFold(c, s[..n]);
      ParityStep(Fold(c, s[..n]), s[n]);
    }
  }

  /** The check sequence of the difference, from zero, is the difference of the check sequences. */
  lemma FoldOfDifference(c: Fcs, s: seq<Octet>, t: seq<Octet>)
    requires |s| == |t|
    ensures Fold(0, Difference(s, t)) == Xor16(Fold(c, s), Fold(c, t))
  {
    SelfXor(c, 0, 0);
    hide *;
    FoldLinear(c, s, c, t);
  }

  /** Flipping an odd number of bits of a frame, anywhere, is always caught. */
  lemma OddErrorsDetected(s: seq<Octet>, t: seq<Octet>)
    requires |s| == |t| && TotalOnes(Difference(s, t)) % 2 == 1
    requires Fold(PRESET, s) == GOOD
    ensures Fold(PRESET, t) != GOOD
  {
    hide Fold, Xor16, Parity16, Difference, TotalOnes;
    if Fold(PRESET, t) == GOOD {
      FoldOfDifference(PRESET, s, t);
      SelfXor(GOOD, 0, 0);
      ParityOfFold(0, Difference(s, t));
      ZeroParity();
    }
  }

  lemma ZeroParity()
    ensures Parity16(0) == 0
  {
  }
}
