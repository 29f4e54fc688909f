/** The period of the check sequence's generator, and the pairs of bit errors it catches. */
module CrcOrder {
  import opened Octets
  import opened Crc

  // ---------- the register, one bit at a time ----------

  /** The register after a zero bit: it stands for a polynomial, lowest power in the highest bit,
      and is multiplied by x modulo the generator. */
  function Turn(c: Fcs): Fcs {
    (c >> 1) ^ ((c & 1) << 15) ^ ((c & 1) << 10) ^ ((c & 1) << 3)
  }

  function Turns(n: nat, c: Fcs): Fcs {
    if n == 0 then c else Turn(Turns(n - 1, c))
  }

  function Wide(o: Octet): Fcs {
    o as bv16
  }

  lemma EightTurns(c: Fcs)
    ensures Turns(8, c) == Turn(Turn(Turn(Turn(Turn(Turn(Turn(Turn(c))))))))
  {
    hide Turn;
    assert Turns(1, c) == Turn(Turns(0, c));
    assert Turns(2, c) == Turn(Turns(1, c));
    assert Turns(4, c) == Turn(Turn(Turns(2, c)));
    assert Turns(6, c) == Turn(Turn(Turns(4, c)));
  }

  lemma UpdateTurns(x: Fcs)
    ensures Update(x, 0) == Turn(Turn(Turn(Turn(Turn(Turn(Turn(Turn(x))))))))
  {
  }

  lemma UpdateTogether(c: Fcs, o: Octet)
    ensures Update(c, o) == Update(Xor16(c, Wide(o)), 0)
  {
    hide Mix, Combine;
  }

  /** An octet is taken in by adding it to the register and turning the register eight times. */
  lemma UpdateIsTurns(c: Fcs, o: Octet)
    ensures Update(c, o) == Turns(8, Xor16(c, Wide(o)))
  {
    hide *;
    EightTurns(Xor16(c, Wide(o)));
    UpdateTogether(c, o);
    UpdateTurns(Xor16(c, Wide(o)));
  }

  lemma TurnLaws(c: Fcs, d: Fcs)
    ensures Turn(Xor16(c, d)) == Xor16(Turn(c), Turn(d))
    ensures Turn(c) == Turn(d) ==> c == d
    ensures Turn(0) == 0
  {
  }

  lemma {:induction false} TurnsLaws(n: nat, c: Fcs, d: Fcs)
    ensures Turns(n, Xor16(c, d)) == Xor16(Turns(n, c), Turns(n, d))
    ensures Turns(n, c) == Turns(n, d) ==> c == d
    ensures Turns(n, 0) == 0
  {
    hide Turn, Xor16;
    if n == 0 {
    } else {
      TurnsLaws(n - 1, c, d);
      TurnLaws(Turns(n - 1, c), Turns(n - 1, d));
    }
  }

  lemma {:induction false} TurnsAdd(m: nat, n: nat, c: Fcs)
    ensures Turns(m + n, c) == Turns(m, Turns(n, c))
  {
    hide Turn;
    if m == 0 {
    } else {
      TurnsAdd(m - 1, n, c);
    }
  }

  // ---------- multiplication ----------

  const UNIT: Fcs := 0x8000

  /** One step of a product: the next coefficient of v, from the highest power down. */
  function Step(a: Fcs, v: Fcs, w: Fcs): Fcs {
    (a >> 1) ^ ((a & 1) << 15) ^ ((a & 1) << 10) ^ ((a & 1) << 3) ^ (w & (0 - (v & 1)))
  }

  function Four(a: Fcs, v: Fcs, w: Fcs): Fcs {
    Step(Step(Step(Step(a, v, w), v >> 1, w), v >> 2, w), v >> 3, w)
  }

  function Mul(v: Fcs, w: Fcs): Fcs {
    Four(Four(Four(Four(0, v, w), v >> 4, w), v >> 8, w), v >> 12, w)
  }

  /** Nothing or w, by the lowest coefficient of v. */
  function Gate(v: Fcs, w: Fcs): Fcs {
    w & (0 - (v & 1))
  }

  lemma GateCommutes(v: Fcs, w: Fcs)
    ensures Gate(v, Turn(w)) == Turn(Gate(v, w))
  {
  }

  lemma StepAdds(a: Fcs, v: Fcs, w: Fcs)
    ensures Step(a, v, w) == Xor16(Turn(a), Gate(v, w))
  {
  }

  lemma StepCommutes(a: Fcs, v: Fcs, w: Fcs)
    ensures Step(Turn(a), v, Turn(w)) == Turn(Step(a, v, w))
  {
    hide *;
    StepAdds(a, v, w);
    StepAdds(Turn(a), v, Turn(w));
    GateCommutes(v, w);
    TurnLaws(Turn(a), Gate(v, w));
  }

  lemma FourCommutes(a: Fcs, v: Fcs, w: Fcs)
    ensures Four(Turn(a), v, Turn(w)) == Turn(Four(a, v, w))
  {
    hide Turn, Step;
    StepCommutes(a, v, w);
    StepCommutes(Step(a, v, w), v >> 1, w);
    StepCommutes(Step(Step(a, v, w), v >> 1, w), v >> 2, w);
    StepCommutes(Step(Step(Step(a, v, w), v >> 1, w), v >> 2, w), v >> 3, w);
  }

  lemma MulCommutes(v: Fcs, w: Fcs)
    ensures Mul(v, Turn(w)) == Turn(Mul(v, w))
  {
    TurnLaws(0, 0);
    hide Four, Turn;
    var a := Four(0, v, w);
    var b := Four(a, v >> 4, w);
    var c := Four(b, v >> 8, w);
    FourCommutes(0, v, w);
    FourCommutes(a, v >> 4, w);
    FourCommutes(b, v >> 8, w);
    FourCommutes(c, v >> 12, w);
  }

  lemma MulUnit(v: Fcs)
    ensures Mul(v, UNIT) == v
  {
  }

  lemma {:induction false} MulTurns(v: Fcs, n: nat)
    ensures Mul(v, Turns(n, UNIT)) == Turns(n, v)
  {
    hide Turn, Mul;
    if n == 0 {
      MulUnit(v);
    } else {
      MulTurns(v, n - 1);
      MulCommutes(v, Turns(n - 1, UNIT));
    }
  }

  // ---------- the period ----------

  lemma Double(n: nat, c: Fcs)
    requires Turns(n, UNIT) == c
    ensures Turns(2 * n, UNIT) == Mul(c, c)
    ensures Turns(2 * n + 1, UNIT) == Turn(Mul(c, c))
  {
    hide Turn, Mul;
    TurnsAdd(n, n, UNIT);
    MulTurns(c, n);
  }

  lemma OneTurn()
    ensures Turns(1, UNIT) == 0x4000
  {
    assert Turns(1, UNIT) == Turn(Turns(0, UNIT));
  }

  lemma PowerOf32768()
    ensures Turns(32768, UNIT) == 0x4000
  {
    OneTurn();
    hide Turns;
    Double(1, 0x4000); Double(2, 0x2000); Double(4, 0x0800); Double(8, 0x0080);
    Double(16, 0x8408); Double(32, 0x0cec); Double(64, 0x861d); Double(128, 0x3f75);
    Double(256, 0x9471); Double(512, 0x3fc8); Double(1024, 0x236c); Double(2048, 0x0abf);
    Double(4096, 0x7955); Double(8192, 0x3811); Double(16384, 0x1a22);
  }

  lemma PowerOf4681()
    ensures Turns(4681, UNIT) != UNIT
  {
    OneTurn();
    hide Turns;
    Double(1, 0x4000); Double(2, 0x2000); Double(4, 0x0800); Double(9, 0x0040);
    Double(18, 0x2102); Double(36, 0xc6c2); Double(73, 0x65f1); Double(146, 0x11c2);
    Double(292, 0x69c8); Double(585, 0x00a2); Double(1170, 0xc680); Double(2340, 0x2420);
  }

  lemma PowerOf1057()
    ensures Turns(1057, UNIT) != UNIT
  {
    OneTurn();
    hide Turns;
    Double(1, 0x4000); Double(2, 0x2000); Double(4, 0x0800); Double(8, 0x0080);
    Double(16, 0x8408); Double(33, 0x0676); Double(66, 0x6383); Double(132, 0x5172);
    Double(264, 0x629a); Double(528, 0xcd1e);
  }

  lemma PowerOf217()
    ensures Turns(217, UNIT) != UNIT
  {
    OneTurn();
    hide Turns;
    Double(1, 0x4000); Double(3, 0x1000); Double(6, 0x0200); Double(13, 0x0004);
    Double(27, 0x9591); Double(54, 0x1688); Double(108, 0x0aec);
  }

  predicate IsPeriod(n: nat) {
    Turns(n, UNIT) == UNIT
  }

  lemma WholePeriod()
    ensures IsPeriod(32767)
  {
    hide Turn;
    PowerOf32768();
    assert Turns(32768, UNIT) == Turn(Turns(32767, UNIT));
    OneTurn();
    assert Turns(1, UNIT) == Turn(UNIT) by { assert Turns(0, UNIT) == UNIT; }
    hide Turns;
    TurnLaws(Turns(32767, UNIT), UNIT);
  }

  lemma PeriodsSubtract(a: nat, b: nat)
    requires IsPeriod(a) && IsPeriod(b) && b <= a
    ensures IsPeriod(a - b)
  {
    hide Turns;
    TurnsAdd(a - b, b, UNIT);
  }

  lemma {:induction false} PeriodsMultiply(a: nat, k: nat)
    ensures IsPeriod(a) ==> IsPeriod(k * a)
  {
    if k == 0 {
      assert Turns(0, UNIT) == UNIT;
    } else {
      PeriodsMultiply(a, k - 1);
      TurnsAdd((k - 1) * a, a, UNIT);
      hide Turns;
      assert (k - 1) * a + a == k * a;
    }
  }

  /** Two periods have a common divisor that is a period. */
  lemma {:induction false} CommonPeriod(a: nat, b: nat) returns (g: nat, p: nat, q: nat)
    requires IsPeriod(a) && IsPeriod(b) && 0 < a && 0 < b
    ensures IsPeriod(g) && g * p == a && g * q == b
    decreases a + b
  {
    hide IsPeriod;
    if a == b {
      g, p, q := a, 1, 1;
    } else if a < b {
      PeriodsSubtract(b, a);
      var r;
      g, p, r := CommonPeriod(a, b - a);
      q := r + p;
      assert g * q == g * r + g * p;
    } else {
      PeriodsSubtract(a, b);
      var r;
      g, r, q := CommonPeriod(a - b, b);
      p := r + q;
      assert g * p == g * r + g * q;
    }
  }

  /** No number from two to d divides 32767 but three of them. */
  predicate OnlyThreeDivide(d: nat) {
    d < 2 || ((32767 % d != 0 || d == 7 || d == 31 || d == 151) && OnlyThreeDivide(d - 1))
  }

  lemma {:induction false} SmallDivisors(d: nat, n: nat)
    requires OnlyThreeDivide(n) && 2 <= d <= n && 32767 % d == 0
    ensures d == 7 || d == 31 || d == 151
  {
    if d == n {
    } else {
      SmallDivisors(d, n - 1);
    }
  }

  lemma NoneTo60()
    ensures OnlyThreeDivide(60)
  {
    assert OnlyThreeDivide(10); assert OnlyThreeDivide(20); assert OnlyThreeDivide(30);
    assert OnlyThreeDivide(40); assert OnlyThreeDivide(50);
  }

  lemma NoneTo120()
    ensures OnlyThreeDivide(120)
  {
    NoneTo60();
    assert OnlyThreeDivide(70); assert OnlyThreeDivide(80); assert OnlyThreeDivide(90);
    assert OnlyThreeDivide(100); assert OnlyThreeDivide(110);
  }

  lemma NoOtherDivides()
    ensures OnlyThreeDivide(182)
  {
    NoneTo120();
    assert OnlyThreeDivide(130); assert OnlyThreeDivide(140); assert OnlyThreeDivide(150);
    assert OnlyThreeDivide(160); assert OnlyThreeDivide(170); assert OnlyThreeDivide(180);
  }

  lemma Divisors(g: nat, q: nat)
    requires g * q == 32767 && 1 < q
    ensures g == 1 || g == 7 || g == 31 || g == 151 || g == 217 || g == 1057 || g == 4681
  {
    NoOtherDivides();
    hide OnlyThreeDivide;
    if q <= 182 {
      DividesEvenly(g, q);
      SmallDivisors(q, 182);
    } else if 1 < g {
      NotBothLarge(g, q);
      DividesEvenly(q, g);
      SmallDivisors(g, 182);
    }
  }

  lemma NotBothLarge(g: nat, q: nat)
    ensures 183 <= g && 183 <= q ==> 183 * 183 <= g * q
  {
    if 183 <= g && 183 <= q {
      assert 183 * 183 <= 183 * q <= g * q;
    }
  }

  lemma DividesEvenly(k: nat, d: nat)
    requires 0 < d
    ensures (k * d) % d == 0
  {
    var x := k * d;
    var t := k - x / d;
    assert d * t == x % d;
    NoSmallMultiple(d, t);
  }

  lemma NoSmallMultiple(d: nat, t: int)
    ensures 1 <= t ==> d <= d * t
    ensures t <= -1 ==> d * t <= -(d as int)
  {
  }

  /** The register comes back to where it was after 32767 zero bits, and not before. */
  lemma PeriodExactly(n: nat)
    requires 0 < n <= 32767
    ensures IsPeriod(n) <==> n == 32767
  {
    WholePeriod();
    if n < 32767 && IsPeriod(n) {
      var g, p, q := CommonPeriod(n, 32767);
      assert q != 1 by { assert p == 0 || g <= g * p; }
      Divisors(g, q);
      PowerOf4681(); PowerOf1057(); PowerOf217();
      PeriodsMultiply(1, 217); PeriodsMultiply(7, 31); PeriodsMultiply(31, 151); PeriodsMultiply(151, 7);
      hide Turns;
    }
  }

  // ---------- two bit errors ----------

  /** What a single one bit leaves in a register of zeros, e bits from the end. */
  function Mark(e: nat): Fcs {
    Turns(e, 1)
  }

  /** Marks less than a period apart differ. */
  lemma MarksDiffer(e: nat, f: nat)
    requires f < e < f + 32767
    ensures Mark(e) != Mark(f)
  {
    if Mark(e) == Mark(f) {
      TurnsAdd(f, e - f, 1);
      TurnsLaws(f, Turns(e - f, 1), 1);
      LastPower();
      TurnsAdd(e - f, 15, UNIT);
      TurnsAdd(15, e - f, UNIT);
      TurnsLaws(15, Turns(e - f, UNIT), UNIT);
      PeriodExactly(e - f);
      hide Turns;
    }
  }

  lemma LastPower()
    ensures Turns(15, UNIT) == 1
  {
    OneTurn();
    hide Turns;
    Double(1, 0x4000); Double(3, 0x1000); Double(7, 0x0100);
  }

  function Place(j: nat): Octet
    requires j < 8
  {
    1 << j
  }

  lemma {:induction false} PlaceTurns(j: nat)
    requires j < 8
    ensures Turns(j, Wide(Place(j))) == 1
  {
    if j == 0 {
    } else {
      PlaceTurns(j - 1);
      PlaceTurnsOnce(j);
      TurnsAdd(j - 1, 1, Wide(Place(j)));
      assert Turns(1, Wide(Place(j))) == Turn(Turns(0, Wide(Place(j))));
      hide Turn, Place, Wide;
    }
  }

  lemma PlaceTurnsOnce(j: nat)
    requires 0 < j < 8
    ensures Turn(Wide(Place(j))) == Wide(Place(j - 1))
  {
  }

  lemma PlaceMarks(j: nat)
    requires j < 8
    ensures Turns(8, Wide(Place(j))) == Mark(8 - j)
  {
    PlaceTurns(j);
    hide Turns, Place;
    TurnsAdd(8 - j, j, Wide(Place(j)));
  }

  /** The lowest one bit of an octet, and the octet without it. */
  lemma LowestBit(o: Octet) returns (j: nat, rest: Octet)
    requires o != 0
    ensures j < 8 && o == Xor(Place(j), rest) && Ones(rest) == Ones(o) - 1
    ensures o & Place(j) != 0 && rest & Place(j) == 0
  {
    j := if o & 1 != 0 then 0 else if o & 2 != 0 then 1 else if o & 4 != 0 then 2 else if o & 8 != 0 then 3
         else if o & 16 != 0 then 4 else if o & 32 != 0 then 5 else if o & 64 != 0 then 6 else 7;
    rest := Xor(o, Place(j));
    OnesWithout(o, j);
    hide Ones;
  }

  lemma OnesWithout(o: Octet, j: nat)
    requires j < 8 && o & Place(j) != 0
    ensures Ones(Xor(o, Place(j))) == Ones(o) - 1
  {
  }

  lemma NoOnes(o: Octet)
    ensures Ones(o) == 0 <==> o == 0
  {
  }

  lemma WideXor(a: Octet, b: Octet)
    ensures Wide(Xor(a, b)) == Xor16(Wide(a), Wide(b))
    ensures Wide(0) == 0
  {
  }

  lemma XorZero(c: Fcs, o: Octet)
    ensures Xor16(c, 0) == c == Xor16(0, c) && Xor(o, 0) == o
  {
  }

  /** What is known of a register of zeros after octets with at most two one bits among n bits. */
  predicate Marked(c: Fcs, ones: nat, n: nat, e: nat, f: nat) {
    && (ones == 0 ==> c == 0)
    && (ones == 1 ==> 0 < e <= n && c == Mark(e))
    && (ones == 2 ==> 0 < e <= n && 0 < f <= n && e != f && c == Xor16(Mark(e), Mark(f)))
  }

  lemma OctetMarked(o: Octet) returns (e: nat, f: nat)
    requires Ones(o) <= 2
    ensures Marked(Turns(8, Wide(o)), Ones(o), 8, e, f)
  {
    e, f := 0, 0;
    TurnsLaws(8, 0, 0);
    NoOnes(o);
    WideXor(0, 0);
    if o != 0 {
      var j, p := LowestBit(o);
      PlaceMarks(j);
      e := 8 - j;
      NoOnes(p);
      hide Ones, Place, Turns, Wide, Xor, Xor16;
      WideXor(Place(j), p);
      TurnsLaws(8, Wide(Place(j)), Wide(p));
      XorZero(Mark(e), Place(j));
      if p != 0 {
        var i, q := LowestBit(p);
        PlaceMarks(i);
        f := 8 - i;
        NoOnes(q);
        XorZero(Mark(f), Place(i));
      }
    }
  }

  lemma MarkedTurns(c: Fcs, ones: nat, n: nat, e: nat, f: nat)
    requires Marked(c, ones, n, e, f)
    ensures Marked(Turns(8, c), ones, n + 8, e + 8, f + 8)
  {
    TurnsLaws(8, Mark(e), Mark(f));
    TurnsAdd(8, e, 1);
    TurnsAdd(8, f, 1);
    hide Turns, Xor16;
    assert Turns(8, 0) == 0;
  }

  lemma {:induction false} FoldMarked(d: seq<Octet>) returns (e: nat, f: nat)
    requires TotalOnes(d) <= 2
    ensures Marked(Fold(0, d), TotalOnes(d), 8 * |d|, e, f)
  {
    e, f := 0, 0;
    if d == [] {
    } else {
      var n := |d| - 1;
      var c, o, k := Fold(0, d[..n]), d[n], TotalOnes(d[..n]);
      assert TotalOnes(d) == k + Ones(o) && Fold(0, d) == Update(c, o);
      hide Update, Ones, TotalOnes, Fold, Turns, Xor16, Wide, Mark;
      e, f := FoldMarked(d[..n]);
      var i, j := OctetMarked(o);
      MarkedTurns(c, k, 8 * n, e, f);
      UpdateIsTurns(c, o);
      TurnsLaws(8, c, Wide(o));
      XorZero(Turns(8, c), o);
      XorZero(Turns(8, Wide(o)), o);
      e, f := e + 8, f + 8;
      if k == 0 {
        e, f := i, j;
      } else if k == 1 && Ones(o) == 1 {
        f := i;
      }
    }
  }

  /** Two flipped bits, however far apart in up to 4095 octets, never go unnoticed. */
  lemma TwoErrorsDetected(s: seq<Octet>, t: seq<Octet>)
    requires |s| == |t| <= 4095 && TotalOnes(Difference(s, t)) == 2
    requires Fold(PRESET, s) == GOOD
    ensures Fold(PRESET, t) != GOOD
  {
    var d := Difference(s, t);
    hide Fold, Xor16, Difference, TotalOnes, Mark;
    if Fold(PRESET, t) == GOOD {
      FoldOfDifference(PRESET, s, t);
      SelfXor(GOOD, 0, 0);
      var e, f := FoldMarked(d);
      XorEqual(Mark(e), Mark(f));
      if e < f { MarksDiffer(f, e); } else { MarksDiffer(e, f); }
    }
  }

  lemma XorEqual(c: Fcs, d: Fcs)
    ensures Xor16(c, d) == 0 ==> c == d
  {
  }

  /** Up to three flipped bits in a frame, anywhere, are always caught. */
  lemma FewErrorsDetected(s: seq<Octet>, t: seq<Octet>)
    requires |s| == |t| <= 4095 && 1 <= TotalOnes(Difference(s, t)) <= 3
    requires Fold(PRESET, s) == GOOD
    ensures Fold(PRESET, t) != GOOD
  {
    hide Fold, Difference, TotalOnes;
    if TotalOnes(Difference(s, t)) == 2 {
      TwoErrorsDetected(s, t);
    } else {
      OddErrorsDetected(s, t);
    }
  }
}
