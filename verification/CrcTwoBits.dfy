/** Two damaged bits, however far apart: what the CRC check lets pass, and what not. */
module CrcTwoBits {
  import opened Arithmetic
  import opened Bits
  import opened Crc16
  import opened CrcFast
  import opened CrcReceive
  import opened CrcDetection

  // ---- The difference of two registers is the register of the difference ----

  function Difference(s: seq<bool>, r: seq<bool>): seq<bool>
    requires |s| == |r|
  {
    seq(|s|, k requires 0 <= k < |s| => s[k] != r[k])
  }

  lemma {:induction false} DifferenceOf(c: bv16, s: seq<bool>, r: seq<bool>)
    requires |s| == |r|
    ensures Xor(CrcBits(c, s), CrcBits(c, r)) == CrcBits(0, Difference(s, r))
  {
    hide Step, Xor;
    if s == [] {
      XorSame(c, c);
    } else {
      var m := |s| - 1;
      DifferenceOf(c, s[..m], r[..m]);
      assert Difference(s, r)[..m] == Difference(s[..m], r[..m]);
      DifferenceStep(CrcBits(c, s[..m]), CrcBits(c, r[..m]), s[m], r[m]);
    }
  }

  lemma XorSame(a: bv16, b: bv16)
    ensures Xor(a, b) == 0 <==> a == b
  {}

  lemma {:induction false} NoFlip(d: seq<bool>)
    requires true !in d
    ensures CrcBits(0, d) == 0
  {
    hide Step;
    if d != [] {
      var m := |d| - 1;
      NoFlip(d[..m]);
      StepOfZero();
      assert !d[m];
    }
  }

  lemma StepOfZero()
    ensures Step(0, false) == 0
  {}

  lemma StepIsShift(c: bv16)
    ensures Step(c, false) == Shift(c) && Step(c, true) == Shift(Xor(c, 1))
  {}

  /** Behind the last flipped bit the difference is only shifted. */
  lemma {:induction false} LastFlip(c: bv16, d: seq<bool>, j: nat)
    requires j < |d| && d[j] && forall k :: j < k < |d| ==> !d[k]
    ensures CrcBits(c, d) == Shifts(Xor(CrcBits(c, d[..j]), 1), |d| - j)
    decreases |d|
  {
    hide Step, Xor, Shift;
    var m := |d| - 1;
    StepIsShift(CrcBits(c, d[..m]));
    if j == m {
      assert Shifts(Xor(CrcBits(c, d[..j]), 1), 0) == Xor(CrcBits(c, d[..j]), 1);
    } else {
      LastFlip(c, d[..m], j);
      assert d[..m][..j] == d[..j];
    }
  }

  lemma {:induction false} ShiftsZero(w: bv16, n: nat)
    ensures Shifts(w, n) == 0 <==> w == 0
  {
    hide Shift;
    if n > 0 {
      ShiftsZero(w, n - 1);
      ShiftZero(Shifts(w, n - 1));
    }
  }

  lemma ShiftZero(w: bv16)
    ensures Shift(w) == 0 <==> w == 0
  {}

  // ---- The period of the register ----

  /** How far the register is after n shifts, from the polynomial 1 on. */
  function Ahead(n: nat): bv16 { Shifts(0x8000, n) }

  predicate Period(n: nat) { Ahead(n) == 0x8000 }

  lemma {:induction false} ShiftsAdd(w: bv16, a: nat, b: nat)
    ensures Shifts(w, a + b) == Shifts(Shifts(w, a), b)
  {
    hide Shift;
    if b > 0 { ShiftsAdd(w, a, b - 1); }
  }

  lemma PeriodAdd(a: nat, b: nat)
    requires Period(a)
    ensures Period(a + b) <==> Period(b)
  {
    hide Shifts;
    ShiftsAdd(0x8000, a, b);
  }

  lemma NoShifts()
    ensures Period(0)
  {}

  lemma {:induction false} PeriodTimes(k: nat, a: nat)
    requires Period(a)
    ensures Period(k * a)
  {
    hide Ahead;
    if k == 0 {
      NoShifts();
    } else {
      PeriodTimes(k - 1, a);
      PeriodAdd(a, (k - 1) * a);
      assert k * a == a + (k - 1) * a;
    }
  }

  lemma ShiftInjective(a: bv16, b: bv16)
    ensures Shift(a) == Shift(b) <==> a == b
  {
    hide Step, Shift;
    StepIsShift(a);
    StepIsShift(b);
    if a != b { Injective(a, b, false); }
  }

  lemma {:induction false} ShiftsInjective(a: bv16, b: bv16, n: nat)
    ensures Shifts(a, n) == Shifts(b, n) <==> a == b
  {
    hide Shift;
    if n > 0 {
      ShiftsInjective(a, b, n - 1);
      ShiftInjective(Shifts(a, n - 1), Shifts(b, n - 1));
    }
  }

  // ---- Multiplication of polynomials, to compute far ahead ----

  function AddIf(acc: bv16, on: bool, p: bv16): bv16 { Xor(Shift(acc), if on then p else 0) }

  /** Four coefficients of w, the highest one first: it is the lowest bit. */
  function Horner(acc: bv16, w: bv16, p: bv16): bv16
  {
    AddIf(AddIf(AddIf(AddIf(acc, w & 1 != 0, p), w & 2 != 0, p), w & 4 != 0, p), w & 8 != 0, p)
  }

  /** w times p modulo the generator. */
  function Times(w: bv16, p: bv16): bv16
  {
    Horner(Horner(Horner(Horner(0, w, p), w >> 4, p), w >> 8, p), w >> 12, p)
  }

  lemma ShiftLinear(a: bv16, b: bv16)
    ensures Shift(Xor(a, b)) == Xor(Shift(a), Shift(b))
  {
    hide Step, Shift, Xor;
    StepIsShift(a);
    StepIsShift(b);
    StepIsShift(Xor(a, b));
    DifferenceStep(a, b, false, false);
  }

  lemma AddIfShift(acc: bv16, on: bool, p: bv16)
    ensures AddIf(Shift(acc), on, Shift(p)) == Shift(AddIf(acc, on, p))
  {
    hide Shift, Xor;
    ShiftLinear(Shift(acc), if on then p else 0);
    ShiftZero(0);
  }

  lemma HornerShift(acc: bv16, w: bv16, p: bv16)
    ensures Horner(Shift(acc), w, Shift(p)) == Shift(Horner(acc, w, p))
  {
    hide Shift, AddIf;
    var a := AddIf(acc, w & 1 != 0, p);
    var b := AddIf(a, w & 2 != 0, p);
    AddIfShift(acc, w & 1 != 0, p);
    AddIfShift(a, w & 2 != 0, p);
    AddIfShift(b, w & 4 != 0, p);
    AddIfShift(AddIf(b, w & 4 != 0, p), w & 8 != 0, p);
  }

  lemma TimesShift(w: bv16, p: bv16)
    ensures Times(w, Shift(p)) == Shift(Times(w, p))
  {
    hide Shift, Horner;
    var a := Horner(0, w, p);
    var b := Horner(a, w >> 4, p);
    ShiftZero(0);
    HornerShift(0, w, p);
    HornerShift(a, w >> 4, p);
    HornerShift(b, w >> 8, p);
    HornerShift(Horner(b, w >> 8, p), w >> 12, p);
  }

  /** 0x8000 is the polynomial 1. */
  lemma Unit(w: bv16)
    ensures Times(w, 0x8000) == w
  {
    hide Horner;
    var a := Horner(0, w, 0x8000);
    var b := Horner(a, w >> 4, 0x8000);
    UnitPart(0, w);
    UnitPart(a, w >> 4);
    UnitPart(b, w >> 8);
    UnitPart(Horner(b, w >> 8, 0x8000), w >> 12);
    Regrouped(w);
  }

  lemma Regrouped(w: bv16)
    ensures var a := w << 12;
      var b := (a >> 4) | ((w >> 4) << 12);
      var c := (b >> 4) | ((w >> 8) << 12);
      (c >> 4) | ((w >> 12) << 12) == w && a & 0xf == 0 && b & 0xf == 0 && c & 0xf == 0
  {}

  lemma UnitPart(acc: bv16, w: bv16)
    requires acc & 0xf == 0
    ensures Horner(acc, w, 0x8000) == (acc >> 4) | (w << 12)
  {
    hide AddIf, Push, Odd;
    var a := Push(acc, w);
    var b := Push(a, w >> 1);
    FourBits(acc, w);
    LowBits(w);
    UnitBit(acc, w);
    UnitBit(a, w >> 1);
    UnitBit(b, w >> 2);
    UnitBit(Push(b, w >> 2), w >> 3);
  }

  /** The lowest bit of w into the top of acc. */
  function Push(acc: bv16, w: bv16): bv16 { (acc >> 1) | (w << 15) }

  lemma LowBits(w: bv16)
    ensures (w & 2 != 0) == ((w >> 1) & 1 != 0)
    ensures (w & 4 != 0) == ((w >> 2) & 1 != 0)
    ensures (w & 8 != 0) == ((w >> 3) & 1 != 0)
  {}

  lemma UnitBit(acc: bv16, w: bv16)
    requires !Odd(acc)
    ensures AddIf(acc, w & 1 != 0, 0x8000) == Push(acc, w)
  {
    hide Push, Odd, Half, Xor;
    TopBitIn(acc, w);
  }

  lemma TopBitIn(acc: bv16, w: bv16)
    ensures w & 1 != 0 ==> Xor(Half(acc), 0x8000) == Push(acc, w)
    ensures w & 1 == 0 ==> Xor(Half(acc), 0) == Push(acc, w)
  {}

  lemma FourBits(acc: bv16, w: bv16)
    requires acc & 0xf == 0
    ensures var a := Push(acc, w);
      var b := Push(a, w >> 1);
      var c := Push(b, w >> 2);
      && !Odd(acc) && !Odd(a) && !Odd(b) && !Odd(c)
      && Push(c, w >> 3) == (acc >> 4) | (w << 12)
  {}

  lemma {:induction false} ShiftsTimes(w: bv16, n: nat)
    ensures Shifts(w, n) == Times(w, Shifts(0x8000, n))
  {
    hide Shift, Times;
    if n == 0 {
      Unit(w);
    } else {
      ShiftsTimes(w, n - 1);
      TimesShift(w, Shifts(0x8000, n - 1));
    }
  }

  lemma AheadAdd(a: nat, b: nat)
    ensures Ahead(a + b) == Times(Ahead(a), Ahead(b))
  {
    hide Shifts, Times;
    ShiftsAdd(0x8000, a, b);
    ShiftsTimes(Ahead(a), b);
  }

  lemma EarlySquares()
    ensures Times(0x0080, 0x0080) == 0xA001
    ensures Times(0xA001, 0xA001) == 0xE801
    ensures Times(0xE801, 0xE801) == 0xC881
    ensures Times(0xC881, 0xC881) == 0x6080
  {}

  lemma MiddleSquares()
    ensures Times(0x6080, 0x6080) == 0x8801
    ensures Times(0x8801, 0x8801) == 0xE081
    ensures Times(0xE081, 0xE081) == 0x6800
    ensures Times(0x6800, 0x6800) == 0x2880
  {}

  lemma LateSquares()
    ensures Times(0x2880, 0x2880) == 0xA881
    ensures Times(0xA881, 0xA881) == 0x4880
    ensures Times(0x4880, 0x4880) == 0x8081
    ensures Times(0x8081, 0x8081) == 0x4000
  {}

  /** The register after every power of two, up to 2 to the 15. */
  lemma Doublings()
    ensures Ahead(8) == 0x0080 && Ahead(9) == 0x0040 && Ahead(1) == 0x4000
    ensures Ahead(16) == 0xA001 && Ahead(32) == 0xE801 && Ahead(64) == 0xC881 && Ahead(128) == 0x6080
    ensures Ahead(256) == 0x8801 && Ahead(512) == 0xE081 && Ahead(1024) == 0x6800 && Ahead(2048) == 0x2880
    ensures Ahead(4096) == 0xA881 && Ahead(8192) == 0x4880 && Ahead(16384) == 0x8081 && Ahead(32768) == 0x4000
  {
    hide Ahead, Times;
    EarlySquares();
    MiddleSquares();
    LateSquares();
    FirstSteps();
    AheadAdd(8, 8);
    AheadAdd(16, 16);
    AheadAdd(32, 32);
    AheadAdd(64, 64);
    AheadAdd(128, 128);
    AheadAdd(256, 256);
    AheadAdd(512, 512);
    AheadAdd(1024, 1024);
    AheadAdd(2048, 2048);
    AheadAdd(4096, 4096);
    AheadAdd(8192, 8192);
    AheadAdd(16384, 16384);
  }

  lemma FirstSteps()
    ensures Ahead(8) == 0x0080 && Ahead(9) == 0x0040 && Ahead(1) == 0x4000
    ensures Ahead(32768) == Ahead(1) ==> Period(32767)
  {
    hide Shift;
    EightShifts(0x8000);
    Starts();
    assert Ahead(9) == Shift(Ahead(8)) && Ahead(1) == Shift(Shifts(0x8000, 0));
    assert Ahead(32768) == Shift(Ahead(32767));
    ShiftInjective(Ahead(32767), 0x8000);
  }

  lemma Starts()
    ensures Shift8(0x8000) == 0x0080 && Shift(0x0080) == 0x0040 && Shift(0x8000) == 0x4000
  {}

  lemma FullPeriod()
    ensures Period(32767)
  {
    hide Ahead;
    Doublings();
    FirstSteps();
  }

  lemma Products4681()
    ensures Times(0xA881, 0xE081) == 0x7A48
    ensures Times(0x7A48, 0xC881) == 0x51DE
    ensures Times(0x51DE, 0x0040) == 0x8C69
  {}

  lemma NoPeriod4681()
    ensures !Period(4681)
  {
    hide Ahead, Times;
    Doublings();
    Products4681();
    AheadAdd(4096, 512);
    AheadAdd(4608, 64);
    AheadAdd(4672, 9);
  }

  lemma Products1057()
    ensures Times(0x6800, 0xE801) == 0xDC81
    ensures Times(0xDC81, 0x4000) == 0xCE41
  {}

  lemma NoPeriod1057()
    ensures !Period(1057)
  {
    hide Ahead, Times;
    Doublings();
    Products1057();
    AheadAdd(1024, 32);
    AheadAdd(1056, 1);
  }

  lemma Products217()
    ensures Times(0x6080, 0xC881) == 0x6668
    ensures Times(0x6668, 0xA001) == 0xEAAF
    ensures Times(0xEAAF, 0x0040) == 0x3E55
  {}

  lemma NoPeriod217()
    ensures !Period(217)
  {
    hide Ahead, Times;
    Doublings();
    Products217();
    AheadAdd(128, 64);
    AheadAdd(192, 16);
    AheadAdd(208, 9);
  }

  // ---- The period is 32767 = 7 * 31 * 151 ----

  predicate Prime(c: nat)
  {
    c >= 2 && forall q :: 2 <= q < c ==> c % q != 0
  }

  /** No number from 2 to r divides c. */
  predicate NoDivisor(c: nat, r: nat)
  {
    r <= 1 || (c % r != 0 && NoDivisor(c, r - 1))
  }

  lemma {:induction false} NotDivided(c: nat, r: nat, q: nat)
    requires NoDivisor(c, r) && 2 <= q <= r
    ensures c % q != 0
  {
    if q < r { NotDivided(c, r - 1, q); }
  }

  /** It is enough to try up to the square root. */
  lemma TrialDivision(c: nat, r: nat)
    requires c >= 2 && NoDivisor(c, r) && c < (r + 1) * (r + 1)
    ensures Prime(c)
  {
    hide NoDivisor;
    forall q | 2 <= q < c ensures c % q != 0 {
      if c % q == 0 {
        Cofactor(c, q, r);
        NotDivided(c, r, if q <= r then q else c / q);
      }
    }
  }

  lemma Cofactor(c: nat, q: nat, r: nat)
    requires 2 <= q < c && c % q == 0 && c < (r + 1) * (r + 1)
    ensures c / q >= 2 && c % (c / q) == 0 && (q <= r || c / q <= r)
  {
    var t := c / q;
    assert c == t * q;
    if t <= 1 { Monotone(t, 1, q); }
    if q > r && t > r { Product(q, t, r + 1); }
    Quotient(c, q, 0, t);
  }

  lemma Product(a: nat, b: nat, n: nat)
    requires n <= a && n <= b
    ensures n * n <= b * a
  {
    Monotone(n, b, a);
    Monotone(n, a, n);
  }

  lemma Primes()
    ensures Prime(7) && Prime(31) && Prime(151)
  {
    hide Prime;
    assert NoDivisor(151, 6);
    TrialDivision(7, 2);
    TrialDivision(31, 5);
    TrialDivision(151, 12);
  }

  lemma Undivided(c: nat, r: nat)
    requires Prime(c) && 1 < r < c
    ensures c % r != 0
  {}

  /** If c * p is a period and so is another multiple of p, then p is one itself: Euclid's
      algorithm for a prime. */
  lemma {:induction false} Reduce(c: nat, p: nat, r: nat)
    requires 0 < r < c && Prime(c)
    requires Period(c * p) && Period(r * p)
    ensures Period(p)
    decreases r
  {
    hide Period, Prime;
    if r > 1 {
      Undivided(c, r);
      Parts(c, r, p);
      PeriodTimes(c / r, r * p);
      PeriodAdd(c / r * (r * p), c % r * p);
      Reduce(c, p, c % r);
    }
  }

  /** A period is a multiple of each of the three primes. */
  lemma Divisible(d: nat, c: nat, p: nat)
    requires c > 1 && c * p == 32767 && Prime(c) && Period(d) && !Period(p)
    ensures d % c == 0
  {
    hide Period, Prime;
    FullPeriod();
    if d % c != 0 {
      Parts(d, c, p);
      PeriodTimes(d / c, c * p);
      PeriodTimes(p, d);
      PeriodAdd(d / c * (c * p), d % c * p);
      Reduce(c, p, d % c);
    }
  }

  /** The register comes back after 32767 shifts and not before. */
  lemma PeriodsAre(d: nat)
    ensures Period(d) <==> d % 32767 == 0
  {
    hide Period;
    if Period(d) {
      Primes();
      NoPeriod4681();
      NoPeriod1057();
      NoPeriod217();
      Divisible(d, 7, 4681);
      Divisible(d, 31, 1057);
      Divisible(d, 151, 217);
      AllThree(d, d / 7, d / 31, d / 151);
    }
    if d % 32767 == 0 {
      FullPeriod();
      PeriodTimes(d / 32767, 32767);
    }
  }

  lemma AllThree(d: int, a: int, b: int, c: int)
    requires d == 7 * a == 31 * b == 151 * c
    ensures d % 32767 == 0
  {
    var e := 9 * b - 2 * a;
    assert d == 217 * e;
    assert d == 32767 * (135 * c - 194 * e);
  }

  // ---- What the check is worth ----

  /** Two flipped bits cancel out exactly if their distance brings the register back. */
  lemma TwoFlips(d: seq<bool>, i: nat, j: nat)
    requires i < j < |d| && d[i] && d[j] && forall k :: 0 <= k < |d| && k != i && k != j ==> !d[k]
    ensures CrcBits(0, d) == 0 <==> Period(j - i)
  {
    hide CrcBits, Xor, Shifts;
    LastFlip(0, d, j);
    LastFlip(0, d[..j], i);
    assert d[..j][..i] == d[..i];
    NoFlip(d[..i]);
    XorSame(Shifts(Xor(0, 1), j - i), 1);
    XorZeroLeft(1);
    PeriodOfOne(j - i);
    ShiftsZero(Xor(Shifts(1, j - i), 1), |d| - j);
  }

  /** Whether n shifts bring the register back does not depend on where it stands: 1 is the
      polynomial x^15, fifteen shifts ahead of 0x8000. */
  lemma PeriodOfOne(n: nat)
    ensures Shifts(1, n) == 1 <==> Period(n)
  {
    hide Shifts;
    FifteenShifts();
    ShiftsAdd(0x8000, 15, n);
    ShiftsAdd(0x8000, n, 15);
    ShiftsInjective(Ahead(n), 0x8000, 15);
  }

  lemma FifteenShifts()
    ensures Shifts(0x8000, 15) == 1
  {
    hide Shift;
    EightShifts(0x8000);
    EightShifts(0x0080);
    ShiftsAdd(0x8000, 8, 8);
    LowOrder();
    assert Shifts(0x8000, 16) == Shift(Shifts(0x8000, 15));
    ShiftInjective(Shifts(0x8000, 15), 1);
  }

  lemma LowOrder()
    ensures Shift8(0x8000) == 0x0080 && Shift8(0x0080) == 0xA001 == Shift(1)
  {}

  lemma XorZeroLeft(a: bv16)
    ensures Xor(0, a) == a
  {}

  /** The places of the damaged bits. */
  function Damage(s: seq<bool>, r: seq<bool>): set<nat>
    requires |s| == |r|
  {
    set k | 0 <= k < |s| && s[k] != r[k]
  }

  /** The exact condition: two damaged bits go unnoticed if and only if their distance is a
      multiple of 32767. */
  lemma TwoBits(sent: seq<bv8>, received: seq<bv8>, i: nat, j: nat)
    requires Intact(sent) && |sent| == |received| && i < j
    requires Damage(BitsOf(sent), BitsOf(received)) == {i, j}
    ensures Intact(received) <==> (j - i) % 32767 == 0
  {
    hide CrcBits, Bit, BitsOf, Intact, Period;
    var s, r := BitsOf(sent), BitsOf(received);
    ResidueMeansIntact(sent);
    ResidueMeansIntact(received);
    DifferenceOf(0xffff, s, r);
    XorSame(CrcBits(0xffff, s), CrcBits(0xffff, r));
    OnlyThese(s, r, i, j);
    TwoFlips(Difference(s, r), i, j);
    PeriodsAre(j - i);
  }

  lemma OnlyThese(s: seq<bool>, r: seq<bool>, i: nat, j: nat)
    requires |s| == |r| && Damage(s, r) == {i, j}
    ensures i < |s| && j < |s| && Difference(s, r)[i] && Difference(s, r)[j]
    ensures forall k :: 0 <= k < |s| && k != i && k != j ==> !Difference(s, r)[k]
  {
    assert i in Damage(s, r) && j in Damage(s, r);
    forall k | 0 <= k < |s| && k != i && k != j ensures s[k] == r[k] {
      assert k !in Damage(s, r);
    }
  }

  lemma {:induction false} OddDamage(s: seq<bool>, r: seq<bool>)
    requires |s| == |r|
    ensures OddTrue(s) != OddTrue(r) <==> |Damage(s, r)| % 2 == 1
  {
    if s != [] {
      var m := |s| - 1;
      OddDamage(s[..m], r[..m]);
      var before := Damage(s[..m], r[..m]);
      assert Damage(s, r) == if s[m] != r[m] then before + {m} else before;
    }
  }

  /** The promise of section 8.3.5 of the USB 2.0 specification, single and double bit errors,
      and triple ones as well: in a packet of up to 4095 bytes, one, two or three damaged bits
      are always noticed. */
  lemma UpToThreeBits(sent: seq<bv8>, received: seq<bv8>)
    requires Intact(sent) && |sent| == |received| <= 4095
    requires 1 <= |Damage(BitsOf(sent), BitsOf(received))| <= 3
    ensures !Intact(received)
  {
    hide Intact, Bit, BitsOf;
    var s, r := BitsOf(sent), BitsOf(received);
    var places := Damage(s, r);
    if |places| == 2 {
      var i, j := TwoPlaces(places);
      assert j in places;
      TwoBits(sent, received, i, j);
      SmallRemainder(j - i, 32767);
    } else {
      OddDamage(s, r);
      OddDamageIsDetected(sent, received);
    }
  }

  lemma TwoPlaces(places: set<nat>) returns (i: nat, j: nat)
    requires |places| == 2
    ensures i < j && places == {i, j}
  {
    i :| i in places;
    assert |places - {i}| == 1;
    j :| j in places - {i};
    assert |places - {i} - {j}| == 0;
    if i > j { i, j := j, i; }
  }
}
