/**
 Times as the board stores them: gap times in units of 155 or 250 ns with a multiplier, frame times,
 and the BCD words of the IRIG clock.
 */
module TimeCodes {
  import opened RingArithmetic

  // ---- Gap and frame times ----

  const MAX_IMG := 83204178
  const HALF := 0x10000

  /** Create_Frame and Alter_IMG at 155 ns: gaps beyond 10158 us are split into m + 1 equal ones. */
  function Multiplier(us: nat): nat { us / 10158 }

  function UnitsPerGap(us: nat, multiplier: nat): nat { us / (multiplier + 1) * 1000 / 155 }

  function Units(us: nat): nat { UnitsPerGap(us, Multiplier(us)) }

  /** What a unit count and a multiplier stand for, in nanoseconds. */
  function Nanoseconds(units: nat, multiplier: nat): nat { At(155 * units, multiplier + 1) }

  lemma UnitsFit(us: nat)
    ensures Units(us) <= 65529
    ensures us <= MAX_IMG ==> Multiplier(us) <= 8191
    ensures us < 10158 * HALF ==> Multiplier(us) < HALF
  {
    DivBelow(us, Multiplier(us) + 1, 10158);
  }

  lemma DivBelow(a: nat, b: nat, c: nat)
    requires b > 0 && a < c * b
    ensures a / b < c
  {
    DivTimes(a, b);
    if a / b >= c { MulMonotone(c, a / b, b); }
  }

  lemma DivTimes(a: nat, b: nat)
    requires b > 0
    ensures a - b < a / b * b <= a
  {
  }

  lemma MulMonotone(a: nat, b: nat, c: nat)
    requires a <= b
    ensures a * c <= b * c
  {
  }

  /** The stored gap is never longer than asked for, and short by less than m us and m + 1 units. */
  lemma GapIsClose(us: nat)
    ensures var m, ns := Multiplier(us), Nanoseconds(Units(us), Multiplier(us));
            1000 * us - 1000 * m - 155 * (m + 1) < ns <= 1000 * us
  {
    var m, t := Multiplier(us), Units(us);
    var q := us / (m + 1);
    DivTimes(us, m + 1);
    assert 1000 * q - 155 < 155 * t <= 1000 * q;
    Scaled(155 * t, 1000 * q, m + 1);
    Scaled(1000 * q - 154, 155 * t, m + 1);
    assert 1000 * q * (m + 1) == 1000 * (q * (m + 1));
    assert (1000 * q - 154) * (m + 1) == 1000 * (q * (m + 1)) - 154 * (m + 1);
  }

  lemma Scaled(a: int, b: int, n: nat)
    requires a <= b
    ensures a * n <= b * n
  {
  }

  /** Three of the multiplier's bits belong to the message; they survive a new gap time. */
  lemma FunctionBitsSurvive(bits: bv16, multiplier: bv16)
    requires bits & 0x1FFF == 0 && multiplier <= 8191
    ensures (multiplier | bits) & 0xE000 == bits && (multiplier | bits) & 0x1FFF == multiplier
  {
  }

  /** At 250 ns, on the Nios boards: gaps from 30000 up are cut by 4000, and all are counted in quarters. */
  function Quarters(gap: nat): nat { (if gap >= 30000 then gap - 4000 else gap) * 4 }

  /** What is left of a number in an unsigned short. */
  function Low16(n: nat): (r: nat)
    ensures r < HALF
    ensures n < HALF ==> r == n
  {
    n % HALF
  }

  function High16(n: nat): nat { n / HALF }

  lemma Recombine(n: nat)
    ensures High16(n) * HALF + Low16(n) == n
    ensures n < 0x2000 * HALF ==> High16(n) <= 8191
  {
  }

  /** The two words of a stack entry that hold its gap time. */
  function GapTime(gap: nat, nios250: bool): nat
  {
    if nios250 then Low16(Quarters(gap)) else Low16(UnitsPerGap(gap, Low16(Multiplier(gap))))
  }

  function ImgMult(gap: nat, nios250: bool): nat
  {
    if nios250 then Low16(High16(Quarters(gap))) else Low16(Multiplier(gap))
  }

  /** Up to the longest gap, nothing is cut off, and the multiplier leaves the three top bits alone. */
  lemma GapWordsHold(gap: nat, nios250: bool)
    requires gap <= MAX_IMG
    ensures ImgMult(gap, nios250) <= 8191
    ensures nios250 ==> ImgMult(gap, true) * HALF + GapTime(gap, true) == Quarters(gap)
    ensures !nios250 ==> ImgMult(gap, false) == Multiplier(gap) && GapTime(gap, false) == Units(gap)
    ensures !nios250 ==>
      var m := ImgMult(gap, false);
      1000 * gap - 1000 * m - 155 * (m + 1) < Nanoseconds(GapTime(gap, false), m) <= 1000 * gap
  {
    hide Low16, High16, Nanoseconds, UnitsPerGap;
    if nios250 {
      Recombine(Quarters(gap));
    } else {
      UnitsFit(gap);
      GapIsClose(gap);
    }
  }

  /**
   What the two words say of a gap in microseconds: in units of 250 ns, just that gap, less 4000 from 30000 on;
   in units of 155 ns, a time as close below it as the split allows.
   */
  predicate StandsFor(units: nat, multiplier: nat, gap: nat, nios250: bool)
  {
    if nios250 then 250 * (0x10000 * multiplier + units) == 1000 * (if gap >= 30000 then gap - 4000 else gap)
    else
      1000 * gap - 1000 * multiplier - 155 * (multiplier + 1) < Nanoseconds(units, multiplier) <= 1000 * gap
  }

  /** So the words of an entry hold the time asked for, up to the longest gap. */
  lemma GapStandsFor(gap: nat, nios250: bool)
    requires gap <= MAX_IMG
    ensures GapTime(gap, nios250) < 0x10000 && ImgMult(gap, nios250) <= 0x1FFF
    ensures StandsFor(GapTime(gap, nios250), ImgMult(gap, nios250), gap, nios250)
  {
    hide Nanoseconds, UnitsPerGap, High16;
    GapWordsHold(gap, nios250);
  }

  /** Create_Frame's and Alter_IMG's encoding of a gap time. */
  method EncodeGap(gap: nat, nios250: bool) returns (gapTime: nat, imgMult: nat)
    ensures gapTime == GapTime(gap, nios250) && imgMult == ImgMult(gap, nios250)
  {
    hide Low16, High16;
    if nios250 {
      var t := gap;
      if t >= 30000 { t := t - 4000; }
      t := t * 4;
      gapTime, imgMult := Low16(t), Low16(High16(t));
    } else {
      var multiplyer := Low16(gap / 10158);
      gapTime, imgMult := Low16(UnitsPerGap(gap, multiplyer)), multiplyer;
    }
  }

  /** Set_Frame_Time: the same split, good for frames of up to eleven minutes. */
  method SetFrameTime(us: nat) returns (frameTime: nat, resolution: nat)
    requires us < 0x8000_0000
    ensures frameTime < HALF && resolution < HALF
    ensures us < 10158 * HALF ==>
      1000 * us - 1000 * frameTime - 155 * (frameTime + 1) < Nanoseconds(resolution, frameTime) <= 1000 * us
  {
    hide Low16, Nanoseconds;
    UnitsFit(us);
    if us < 10158 * HALF { GapIsClose(us); }
    hide UnitsPerGap;
    frameTime := Low16(us / 10158);
    resolution := Low16(UnitsPerGap(us, frameTime));
  }

  /** The cut makes some longer gaps come out shorter: exactly those that straddle it too closely. */
  lemma QuartersGrowUnless(a: nat, b: nat)
    requires a < b
    ensures Quarters(a) < Quarters(b) <==> !(a < 30000 <= b && b - 4000 <= a)
    ensures Quarters(30000) < Quarters(29999)
  {
  }

  function CeilDiv(a: nat, b: nat): nat
    requires b > 0
  {
    (a + b - 1) / b
  }

  /** Set_Minor_Frame_Time.  C divides towards zero, so that 0 us gets the multiplier 1. */
  method SetMinorFrameTime(us: nat) returns (time: nat, resolution: nat)
    requires us < 0x8000_0000
    ensures time < HALF && 1 <= resolution < HALF
    ensures us >= 1 ==> resolution == CeilDiv(us, 65535)
    // the finest resolution at which the whole time can be counted
    ensures us >= 1 ==> 65535 * (resolution - 1) < us <= 65535 * resolution
    ensures time == us / resolution
  {
    var quotient := if us == 0 then 0 else (us - 1) / 65535;
    resolution := quotient % HALF + 1;
    var value := us / resolution;
    TimeFits(us, resolution);
    time := value % HALF;
  }

  lemma TimeFits(us: nat, resolution: nat)
    requires resolution == (if us == 0 then 0 else (us - 1) / 65535) + 1
    ensures us / resolution <= 65535
  {
    assert us < 65536 * resolution;
    DivBelow(us, resolution, 65536);
  }

  /** Get_Minor_Frame_Time. */
  function GetMinorFrameTime(time: nat, resolution: nat): nat { At(time, resolution) }

  /** What is read back: the time set, rounded down to a multiple of its resolution. */
  method MinorFrameRoundTrip(us: nat) returns (back: nat)
    requires 1 <= us < 0x8000_0000
    ensures back == us - us % CeilDiv(us, 65535)
    ensures back == us <==> us % CeilDiv(us, 65535) == 0
    ensures us <= 65535 ==> back == us
  {
    var time, resolution := SetMinorFrameTime(us);
    back := GetMinorFrameTime(time, resolution);
  }

  // ---- BCD ----

  function Pow(b: nat, n: nat): nat { if n == 0 then 1 else b * Pow(b, n - 1) }

  /** The lowest n decimal digits of v, one to a nibble. */
  function Bcd(v: nat, n: nat): nat { if n == 0 then 0 else v % 10 + 16 * Bcd(v / 10, n - 1) }

  /** n nibbles read as decimal digits. */
  function Binary(bcd: nat, n: nat): nat { if n == 0 then 0 else bcd % 16 + 10 * Binary(bcd / 16, n - 1) }

  predicate AllDigits(bcd: nat, n: nat) { n == 0 || (bcd % 16 <= 9 && AllDigits(bcd / 16, n - 1)) }

  lemma {:induction false} PowPositive(b: nat, n: nat)
    requires b > 0
    ensures Pow(b, n) > 0
  {
    if n > 0 {
      PowPositive(b, n - 1);
      MulMonotone(1, b, Pow(b, n - 1));
    }
  }

  function Last(v: nat, p: nat): nat
    requires p > 0
  {
    v % p
  }

  lemma ModSplit(v: nat, p: nat)
    requires p > 0
    ensures Last(v, 10 * p) == v % 10 + 10 * Last(v / 10, p)
  {
    var a, b := v / 10 / p, v / 10 % p;
    SplitAt(v, p, a, b, v % 10);
  }

  lemma SplitAt(v: nat, p: nat, a: nat, b: nat, r: nat)
    requires v == 10 * (At(a, p) + b) + r && b < p && r < 10
    ensures v % (10 * p) == r + 10 * b
  {
    hide At;
    Tenfold(a, p);
    RemainderAt(v, a, 10 * p, 10 * b + r);
  }

  lemma Tenfold(a: nat, p: nat)
    ensures At(a, 10 * p) == 10 * At(a, p)
  {
  }

  lemma AllOfIt(v: nat, p: nat)
    requires v < p
    ensures Last(v, p) == v
  {
  }

  /** Decoding what was encoded gives the value's last n digits. */
  lemma {:induction false} BinaryOfBcd(v: nat, n: nat, m: nat)
    requires n <= m
    ensures Pow(10, n) > 0 && Binary(Bcd(v, n), m) == Last(v, Pow(10, n))
  {
    PowPositive(10, n);
    if n == 0 {
      BinaryOfZero(m);
    } else {
      BinaryOfBcd(v / 10, n - 1, m - 1);
      ModSplit(v, Pow(10, n - 1));
      LowestDigit(v, n);
      hide Bcd, Last;
    }
  }

  lemma LowestDigit(v: nat, n: nat)
    requires n > 0
    ensures Bcd(v, n) % 16 == v % 10 && Bcd(v, n) / 16 == Bcd(v / 10, n - 1)
  {
    hide Bcd;
    BcdUnfold(v, n);
  }

  lemma BcdUnfold(v: nat, n: nat)
    requires n > 0
    ensures Bcd(v, n) == v % 10 + 16 * Bcd(v / 10, n - 1)
  {
  }

  lemma {:induction false} BinaryOfZero(m: nat)
    ensures Binary(0, m) == 0
  {
    if m > 0 { BinaryOfZero(m - 1); }
  }

  /** Encoding what was decoded gives back every word whose nibbles are digits. */
  lemma {:induction false} BcdOfBinary(bcd: nat, n: nat)
    requires AllDigits(bcd, n) && bcd < Pow(16, n)
    ensures Bcd(Binary(bcd, n), n) == bcd
  {
    if n > 0 {
      assert bcd / 16 < Pow(16, n - 1);
      BcdOfBinary(bcd / 16, n - 1);
      var b := Binary(bcd / 16, n - 1);
      assert Binary(bcd, n) % 10 == bcd % 16 && Binary(bcd, n) / 10 == b;
    }
  }

  lemma {:induction false} BcdBound(v: nat, n: nat)
    ensures Bcd(v, n) < Pow(16, n)
  {
    if n > 0 { BcdBound(v / 10, n - 1); }
  }

  /** The source's `|`, bit by bit. */
  function BitOr(a: nat, b: nat): nat
  {
    if a == 0 && b == 0 then 0
    else (if a % 2 == 1 || b % 2 == 1 then 1 else 0) + 2 * BitOr(a / 2, b / 2)
  }

  /** The source's `<<`, where no bit is lost. */
  function ShiftLeft(a: nat, k: nat): nat { a * Pow(2, k) }

  lemma {:induction false} OrOfZero(b: nat)
    ensures BitOr(0, b) == b
  {
    if b > 0 { OrOfZero(b / 2); }
  }

  lemma {:induction false} OrCommutes(a: nat, b: nat)
    ensures BitOr(a, b) == BitOr(b, a)
    decreases a + b
  {
    if a + b > 0 { OrCommutes(a / 2, b / 2); }
  }

  /** Fields put together with `|` and `<<` are added, as they do not overlap. */
  lemma {:induction false} OrIsPlus(low: nat, high: nat, k: nat)
    requires low < Pow(2, k)
    ensures BitOr(low, ShiftLeft(high, k)) == BitOr(ShiftLeft(high, k), low) == low + ShiftLeft(high, k)
  {
    hide Pow, BitOr, ShiftLeft;
    OrCommutes(low, ShiftLeft(high, k));
    if k == 0 {
      ShiftByNone(high);
      OrOfZero(high);
    } else {
      ShiftHalves(low, high, k);
      OrIsPlus(low / 2, high, k - 1);
      OrUnfold(low, ShiftLeft(high, k));
    }
  }

  lemma ShiftByNone(a: nat)
    ensures ShiftLeft(a, 0) == a && Pow(2, 0) == 1
  {
  }

  lemma ShiftHalves(low: nat, a: nat, k: nat)
    requires k > 0 && low < Pow(2, k)
    ensures ShiftLeft(a, k) == 2 * ShiftLeft(a, k - 1) && low / 2 < Pow(2, k - 1)
  {
  }

  lemma OrUnfold(a: nat, b: nat)
    requires b % 2 == 0
    ensures BitOr(a, b) == a % 2 + 2 * BitOr(a / 2, b / 2)
  {
  }

  /** BuildBCD_Px. */
  method BuildBCD(binaryValue: nat, bitOffset: nat, numDigits: nat) returns (bcd: nat)
    requires numDigits <= 8 && bitOffset <= 32 - 4 * numDigits
    ensures bcd == ShiftLeft(Bcd(binaryValue, numDigits), bitOffset)
  {
    hide Pow, Bcd, ShiftLeft, BitOr;
    var v := binaryValue;
    var bcdValue := 0;
    NoDigitYet(binaryValue, numDigits);
    for k := 0 to numDigits
      invariant 0 <= v && 0 <= bcdValue
      invariant DigitsSoFar(bcdValue, v, k, numDigits - k, Bcd(binaryValue, numDigits))
    {
      var digit := v % 10;
      AddDigit(bcdValue, v, k, numDigits - k, Bcd(binaryValue, numDigits));
      v := v / 10;
      bcdValue := BitOr(bcdValue, ShiftLeft(digit, k * 4));
    }
    bcd := ShiftLeft(bcdValue, bitOffset);
    BcdOfNone(v, numDigits);
  }

  /** k digits are in place; together with the `left` digits of v above them they make up the goal. */
  predicate DigitsSoFar(bcdValue: nat, v: nat, k: nat, left: nat, goal: nat)
  {
    bcdValue < Pow(2, k * 4) && bcdValue + ShiftLeft(Bcd(v, left), k * 4) == goal
  }

  lemma NoDigitYet(v: nat, n: nat)
    ensures DigitsSoFar(0, v, 0, n, Bcd(v, n))
  {
  }

  lemma AddDigit(bcdValue: nat, v: nat, k: nat, left: nat, goal: nat)
    requires 0 < left && DigitsSoFar(bcdValue, v, k, left, goal)
    ensures DigitsSoFar(BitOr(bcdValue, ShiftLeft(v % 10, k * 4)), v / 10, k + 1, left - 1, goal)
  {
    hide Pow, Bcd, ShiftLeft, BitOr;
    BcdUnfold(v, left);
    OneDigitMore(v % 10, Bcd(v / 10, left - 1), bcdValue, k * 4);
    OrIsPlus(bcdValue, v % 10, k * 4);
  }

  lemma BcdOfNone(v: nat, k: nat)
    ensures ShiftLeft(Bcd(v, 0), k * 4) == 0
  {
  }

  lemma PowersOfTwo(k: nat)
    ensures Pow(2, 0) == 1 && Pow(2, k + 4) == 16 * Pow(2, k)
  {
    assert Pow(2, k + 4) == 2 * Pow(2, k + 3) && Pow(2, k + 2) == 2 * Pow(2, k + 1);
  }

  lemma OneDigitMore(digit: nat, rest: nat, below: nat, k: nat)
    requires digit < 16 && below < Pow(2, k)
    ensures ShiftLeft(digit + 16 * rest, k) == ShiftLeft(digit, k) + ShiftLeft(rest, k + 4)
    ensures below + ShiftLeft(digit, k) < Pow(2, k + 4)
  {
    hide Pow;
    PowersOfTwo(k);
    MulMonotone(digit + 1, 16, Pow(2, k));
  }

  /** BCDtoBinary_Px. */
  method BCDtoBinary(bcdValue: nat) returns (binary: nat)
    ensures binary == Binary(bcdValue, 8)
  {
    var bcd := bcdValue;
    var multiplyer := 1;
    binary := 0;
    var digit := 0;
    while digit < 8
      invariant 0 <= digit <= 8 && 0 <= bcd && multiplyer > 0
      invariant binary + At(multiplyer, Binary(bcd, 8 - digit)) == Binary(bcdValue, 8)
    {
      OneNibbleMore(multiplyer, bcd % 16, Binary(bcd / 16, 7 - digit));
      MulMonotone(0, bcd % 16, multiplyer);
      binary := binary + bcd % 16 * multiplyer;
      bcd := bcd / 16;
      multiplyer := multiplyer * 10;
      digit := digit + 1;
    }
  }

  lemma OneNibbleMore(place: int, nibble: int, rest: int)
    ensures At(place, nibble + 10 * rest) == nibble * place + At(place * 10, rest)
  {
  }

  // ---- The IRIG clock ----

  datatype IrigTime = IrigTime(days: nat, hours: nat, minutes: nat, seconds: nat, microsecs: nat)

  predicate Word(w: nat) { w < HALF }

  function Low12(w: nat): nat { w % 0x1000 }

  function HighByte(w: nat): nat { w / 0x100 }

  function LowByte(w: nat): nat { w % 0x100 }

  /** The fields as the printer of BCD times takes them apart, by the loop above. */
  function LoopDecoded(w0: nat, w1: nat, w2: nat, w3: nat): IrigTime
  {
    IrigTime(Binary(Low12(w0), 8), Binary(HighByte(w1), 8), Binary(LowByte(w1), 8), Binary(HighByte(w2), 8),
             Binary(LowByte(w2) * HALF + w3, 8))
  }

  /** The hardware's time is a second behind. */
  function NextSecond(t: IrigTime): IrigTime
  {
    if t.seconds + 1 != 60 then t.(seconds := t.seconds + 1)
    else if t.minutes + 1 != 60 then t.(seconds := 0, minutes := t.minutes + 1)
    else if t.hours + 1 != 24 then t.(seconds := 0, minutes := 0, hours := t.hours + 1)
    else t.(seconds := 0, minutes := 0, hours := 0, days := if t.days + 1 in {366, 367} then 0 else t.days + 1)
  }

  /** A word's digits; 0 is the lowest. */
  function Nibble(w: nat, i: nat): nat
    requires i < 4
  {
    if i == 0 then w % 16 else if i == 1 then w / 0x10 % 16 else if i == 2 then w / 0x100 % 16 else w / 0x1000 % 16
  }

  lemma WordOfNibbles(w: nat)
    requires Word(w)
    ensures Low12(w) == 16 * (16 * Nibble(w, 2) + Nibble(w, 1)) + Nibble(w, 0)
    ensures HighByte(w) == 16 * Nibble(w, 3) + Nibble(w, 2) && LowByte(w) == 16 * Nibble(w, 1) + Nibble(w, 0)
    ensures w == 16 * (16 * (16 * Nibble(w, 3) + Nibble(w, 2)) + Nibble(w, 1)) + Nibble(w, 0)
    ensures Nibble(w, 0) < 16 && Nibble(w, 1) < 16 && Nibble(w, 2) < 16 && Nibble(w, 3) < 16
  {
    var q := w / 16;
    FourNibbles(w % 16, q % 16, q / 16 % 16, q / 16 / 16);
  }

  lemma FourNibbles(d: nat, c: nat, b: nat, a: nat)
    requires a < 16 && b < 16 && c < 16 && d < 16
    ensures var w := 16 * (16 * (16 * a + b) + c) + d;
      && Nibble(w, 0) == d && Nibble(w, 1) == c && Nibble(w, 2) == b && Nibble(w, 3) == a
      && w % 0x1000 == 16 * (16 * b + c) + d && w / 0x100 == 16 * a + b && w % 0x100 == 16 * c + d
  {
    var w := 16 * (16 * (16 * a + b) + c) + d;
    QuotientIsUnique(w, 16 * (16 * a + b) + c, 0x10, d);
    QuotientIsUnique(w, 16 * a + b, 0x100, 16 * c + d);
    QuotientIsUnique(w, a, 0x1000, 16 * (16 * b + c) + d);
    QuotientIsUnique(16 * (16 * a + b) + c, 16 * a + b, 0x10, c);
    QuotientIsUnique(16 * a + b, a, 0x10, b);
  }

  lemma Digit(high: nat, nibble: nat, n: nat)
    requires n > 0 && nibble < 16
    ensures Binary(16 * high + nibble, n) == nibble + 10 * Binary(high, n - 1)
  {
    assert (16 * high + nibble) % 16 == nibble && (16 * high + nibble) / 16 == high;
  }

  lemma DigitsOf2(a: nat, b: nat)
    requires a < 16 && b < 16
    ensures Binary(16 * a + b, 8) == 10 * a + b
  {
    hide Binary;
    Digit(a, b, 8);
    Digit(0, a, 7);
    BinaryOfZero(6);
  }

  lemma DigitsOf3(a: nat, b: nat, c: nat)
    requires a < 16 && b < 16 && c < 16
    ensures Binary(16 * (16 * a + b) + c, 8) == 100 * a + 10 * b + c
  {
    hide Binary;
    Digit(16 * a + b, c, 8);
    Digit(a, b, 7);
    Digit(0, a, 6);
    BinaryOfZero(5);
  }

  lemma DigitsOf6(a: nat, b: nat, low: nat)
    requires a < 16 && b < 16 && Word(low)
    ensures Binary((16 * a + b) * HALF + low, 8) ==
      100000 * a + 10000 * b + 1000 * Nibble(low, 3) + 100 * Nibble(low, 2) + 10 * Nibble(low, 1) + Nibble(low, 0)
  {
    hide Binary, Nibble;
    WordOfNibbles(low);
    var two := 16 * a + b;
    var three := 16 * two + Nibble(low, 3);
    var four := 16 * three + Nibble(low, 2);
    Digit(16 * four + Nibble(low, 1), Nibble(low, 0), 8);
    Digit(four, Nibble(low, 1), 7);
    Digit(three, Nibble(low, 2), 6);
    Digit(two, Nibble(low, 3), 5);
    Digit(a, b, 4);
    Digit(0, a, 3);
    BinaryOfZero(2);
  }

  lemma DecodedByDigits(w0: nat, w1: nat, w2: nat, w3: nat)
    requires Word(w0) && Word(w1) && Word(w2) && Word(w3)
    ensures LoopDecoded(w0, w1, w2, w3) == IrigTime(
      100 * Nibble(w0, 2) + 10 * Nibble(w0, 1) + Nibble(w0, 0),
      10 * Nibble(w1, 3) + Nibble(w1, 2), 10 * Nibble(w1, 1) + Nibble(w1, 0), 10 * Nibble(w2, 3) + Nibble(w2, 2),
      100000 * Nibble(w2, 1) + 10000 * Nibble(w2, 0)
      + 1000 * Nibble(w3, 3) + 100 * Nibble(w3, 2) + 10 * Nibble(w3, 1) + Nibble(w3, 0))
  {
    hide Binary, Nibble, Low12, HighByte, LowByte;
    WordOfNibbles(w0);
    WordOfNibbles(w1);
    WordOfNibbles(w2);
    DigitsOf3(Nibble(w0, 2), Nibble(w0, 1), Nibble(w0, 0));
    DigitsOf2(Nibble(w1, 3), Nibble(w1, 2));
    DigitsOf2(Nibble(w1, 1), Nibble(w1, 0));
    DigitsOf2(Nibble(w2, 3), Nibble(w2, 2));
    DigitsOf6(Nibble(w2, 1), Nibble(w2, 0), w3);
  }

  /** Convert_IrigTimetag_BCD_to_Decimal_Px: the digits one by one, then the correction. */
  method ConvertIrigTimetag(w0: nat, w1: nat, w2: nat, w3: nat) returns (t: IrigTime)
    requires Word(w0) && Word(w1) && Word(w2) && Word(w3)
    ensures t == NextSecond(LoopDecoded(w0, w1, w2, w3))
  {
    hide Nibble, LoopDecoded;
    var days := Nibble(w0, 2) * 100;
    days := days + Nibble(w0, 1) * 10;
    days := days + Nibble(w0, 0);
    var hours := Nibble(w1, 3) * 10;
    hours := hours + Nibble(w1, 2);
    var minutes := Nibble(w1, 1) * 10;
    minutes := minutes + Nibble(w1, 0);
    var seconds := Nibble(w2, 3) * 10;
    seconds := seconds + Nibble(w2, 2);
    var microsecs := Nibble(w2, 1) * 100000;
    microsecs := microsecs + Nibble(w2, 0) * 10000;
    microsecs := microsecs + Nibble(w3, 3) * 1000;
    microsecs := microsecs + Nibble(w3, 2) * 100;
    microsecs := microsecs + Nibble(w3, 1) * 10;
    microsecs := microsecs + Nibble(w3, 0);
    DecodedByDigits(w0, w1, w2, w3);
    assert IrigTime(days, hours, minutes, seconds, microsecs) == LoopDecoded(w0, w1, w2, w3);
    seconds := seconds + 1;
    if seconds == 60 {
      seconds := 0;
      minutes := minutes + 1;
      if minutes == 60 {
        minutes := 0;
        hours := hours + 1;
        if hours == 24 {
          hours := 0;
          days := days + 1;
          if days == 366 || days == 367 { days := 0; }
        }
      }
    }
    t := IrigTime(days, hours, minutes, seconds, microsecs);
  }

  function OrderedSeconds(t: IrigTime): nat { ((t.days * 24 + t.hours) * 60 + t.minutes) * 60 + t.seconds }

  /** `status |= bit`, where neither that bit nor a lower one is set yet. */
  lemma StatusBit(a: nat)
    ensures BitOr(16 * a, 8) == 16 * a + 8 && BitOr(8 * a, 4) == 8 * a + 4
    ensures BitOr(4 * a, 2) == 4 * a + 2 && BitOr(2 * a, 1) == 2 * a + 1
  {
    assert Pow(2, 1) == 2 && Pow(2, 2) == 4 && Pow(2, 3) == 8 && Pow(2, 4) == 16;
    hide Pow, BitOr;
    OrIsPlus(8, a, 4);
    OrIsPlus(4, a, 3);
    OrIsPlus(2, a, 2);
    OrIsPlus(1, a, 1);
  }

  /** Brings the parameters into range, and says in the status which were not. */
  method Normalize(day: nat, hour: nat, minute: nat, second: nat) returns (status: nat, d: nat, h: nat, m: nat, s: nat)
    ensures IrigTime(d, h, m, s, 0) == InRange(day, hour, minute, second)
    ensures status == (if day > 366 then 8 else 0) + (if hour > 23 then 4 else 0)
                      + (if minute > 59 then 2 else 0) + (if second > 59 then 1 else 0)
  {
    hide BitOr;
    status := 0;
    d, h, m, s := day, hour, minute, second;
    ghost var days := if day > 366 then 1 else 0;
    ghost var hours := if hour > 23 then 1 else 0;
    ghost var minutes := if minute > 59 then 1 else 0;
    if d > 366 { StatusBit(0); status := BitOr(status, 8); d := d % 366; }
    if h > 23 { StatusBit(days); status := BitOr(status, 4); h := h % 24; }
    if m > 59 { StatusBit(2 * days + hours); status := BitOr(status, 2); m := m % 60; }
    if s > 59 { StatusBit(4 * days + 2 * hours + minutes); status := BitOr(status, 1); s := s % 60; }
  }

  /** The registers that Preset_IrigTimeTag_Px loads, and the status that says what was out of range. */
  method PresetIrigTimeTag(day: nat, hour: nat, minute: nat, second: nat)
    returns (status: nat, dayReg: nat, hourMinReg: nat, secondReg: nat)
    requires Word(day) && Word(hour) && Word(minute) && Word(second)
    ensures var t := InRange(day, hour, minute, second);
      && status == (if day > 366 then 8 else 0) + (if hour > 23 then 4 else 0)
                   + (if minute > 59 then 2 else 0) + (if second > 59 then 1 else 0)
      && (status == 0 <==> t == IrigTime(day, hour, minute, second, 0))
      && Word(dayReg) && Word(hourMinReg) && Word(secondReg)
      && LoopDecoded(dayReg, hourMinReg, secondReg, 0) == t
  {
    hide Bcd, LoopDecoded, Pow, BitOr;
    var d, h, m, s;
    status, d, h, m, s := Normalize(day, hour, minute, second);
    var hours := BuildBCD(h, 8, 2);
    var minutes := BuildBCD(m, 0, 2);
    dayReg := BuildBCD(d, 0, 3);
    secondReg := BuildBCD(s, 8, 2);
    Powers();
    RegistersDecode(d, h, m, s);
    OrIsPlus(minutes, Bcd(h, 2), 8);
    hourMinReg := BitOr(hours, minutes);
  }

  lemma RegistersDecode(d: nat, h: nat, m: nat, s: nat)
    requires d < 1000 && h < 100 && m < 100 && s < 100
    ensures Bcd(d, 3) < 0x1000 && Bcd(h, 2) < 0x100 && Bcd(m, 2) < 0x100 && Bcd(s, 2) < 0x100
    ensures LoopDecoded(Bcd(d, 3), Bcd(h, 2) * 0x100 + Bcd(m, 2), Bcd(s, 2) * 0x100, 0) == IrigTime(d, h, m, s, 0)
  {
    hide Bcd, Binary, Pow, LoopDecoded, HighByte, LowByte;
    Powers();
    BackAgain(d, 3);
    BackAgain(h, 2);
    BackAgain(m, 2);
    BackAgain(s, 2);
    Bytes(Bcd(h, 2), Bcd(m, 2));
    Bytes(Bcd(s, 2), 0);
    ByBytes(Bcd(d, 3), Bcd(h, 2) * 0x100 + Bcd(m, 2), Bcd(s, 2) * 0x100);
  }

  lemma BackAgain(v: nat, n: nat)
    requires n <= 8 && v < Pow(10, n)
    ensures Bcd(v, n) < Pow(16, n) && Binary(Bcd(v, n), 8) == v
  {
    hide Bcd, Binary, Pow, Last;
    BcdBound(v, n);
    BinaryOfBcd(v, n, 8);
    AllOfIt(v, Pow(10, n));
  }

  lemma ByBytes(w0: nat, w1: nat, w2: nat)
    requires w0 < 0x1000 && LowByte(w2) == 0
    ensures LoopDecoded(w0, w1, w2, 0) ==
            IrigTime(Binary(w0, 8), Binary(HighByte(w1), 8), Binary(LowByte(w1), 8), Binary(HighByte(w2), 8), 0)
  {
    hide Binary, Low12, HighByte, LowByte;
    ShortWord(w0);
    assert LowByte(w2) * HALF + 0 == 0;
    BinaryOfZero(8);
  }

  lemma Bytes(high: nat, low: nat)
    requires low < 0x100
    ensures HighByte(high * 0x100 + low) == high && LowByte(high * 0x100 + low) == low
  {
    QuotientIsUnique(high * 0x100 + low, high, 0x100, low);
  }

  lemma ShortWord(w: nat)
    requires w < 0x1000
    ensures Low12(w) == w
  {
  }

  lemma Powers()
    ensures Pow(2, 0) == 1 && Pow(2, 8) == 0x100 && Pow(16, 2) == 0x100 && Pow(16, 3) == 0x1000
    ensures Pow(10, 2) == 100 && Pow(10, 3) == 1000
  {
    assert Pow(2, 4) == 16;
    assert Pow(10, 1) == 10 && Pow(16, 1) == 16;
  }

  function InRange(day: nat, hour: nat, minute: nat, second: nat): IrigTime
  {
    IrigTime(if day > 366 then day % 366 else day, hour % 24, minute % 60, second % 60, 0)
  }

  /** A preset time reads as the second after it; the day after 365, or 366, is day 0. */
  method PresetThenRead(day: nat, hour: nat, minute: nat, second: nat) returns (t: IrigTime)
    requires Word(day) && Word(hour) && Word(minute) && Word(second)
    ensures var preset := InRange(day, hour, minute, second);
      && t.hours < 24 && t.minutes < 60 && t.seconds < 60 && t.days <= 366 && t.microsecs == 0
      && OrderedSeconds(t) ==
         if preset.days >= 365 && preset == IrigTime(preset.days, 23, 59, 59, 0) then 0 else OrderedSeconds(preset) + 1
  {
    var status, dayReg, hourMinReg, secondReg := PresetIrigTimeTag(day, hour, minute, second);
    t := ConvertIrigTimetag(dayReg, hourMinReg, secondReg, 0);
    hide LoopDecoded, InRange, NextSecond;
    NextSecondIsNext(InRange(day, hour, minute, second));
    InRangeIs(day, hour, minute, second);
  }

  lemma InRangeIs(day: nat, hour: nat, minute: nat, second: nat)
    ensures var t := InRange(day, hour, minute, second);
            t.hours < 24 && t.minutes < 60 && t.seconds < 60 && t.days <= 366 && t.microsecs == 0
  {
  }

  lemma NextSecondIsNext(t: IrigTime)
    requires t.hours < 24 && t.minutes < 60 && t.seconds < 60 && t.days <= 366
    ensures var n := NextSecond(t);
      && n.hours < 24 && n.minutes < 60 && n.seconds < 60 && n.days <= 366 && n.microsecs == t.microsecs
      && OrderedSeconds(n) ==
         if t.days >= 365 && t == IrigTime(t.days, 23, 59, 59, t.microsecs) then 0 else OrderedSeconds(t) + 1
  {
  }
}
