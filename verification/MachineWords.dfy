/** The words of the machine: what `^`, `>>` and `&` do to 32 bits is what the arithmetic of `Crc` does to the
    number they stand for.  With it the machine's own operators settle the CRC of a given chunk. */
module MachineWords {
  import opened Crc

  const WIDTH: nat := 32
  const POLY: bv32 := 0xedb88320

  function Low(v: bv32): bool {
    v & 1 == 1
  }

  function Half(v: bv32): bv32 {
    v >> 1
  }

  function Plus(a: bv32, b: bv32): bv32 {
    a ^ b
  }

  function Bit(b: bool): nat {
    if b then 1 else 0
  }

  // ----- words of any kind, through their lowest bit and their half -----------------------------

  /** The number that the lowest `n` bits of a word stand for. */
  function Value<W>(low: W -> bool, half: W -> W, v: W, n: nat): nat
    decreases n
  {
    if n == 0 then 0 else Bit(low(v)) + 2 * Value(low, half, half(v), n - 1)
  }

  function Halves<W>(half: W -> W, v: W, n: nat): W
    decreases n
  {
    if n == 0 then v else Halves(half, half(v), n - 1)
  }

  lemma XorPair(x: nat, y: nat, a: nat, b: nat, i: bool, j: bool)
    requires a == Bit(i) + 2 * x && b == Bit(j) + 2 * y
    ensures Xor(a, b) == Bit(i != j) + 2 * Xor(x, y)
  {
    assert a / 2 == x && b / 2 == y;
  }

  lemma {:induction false} ValueOfSum<W(!new)>(low: W -> bool, half: W -> W, plus: (W, W) -> W, a: W, b: W, n: nat)
    requires forall x: W, y: W :: low(plus(x, y)) == (low(x) != low(y)) && half(plus(x, y)) == plus(half(x), half(y))
    ensures Value(low, half, plus(a, b), n) == Xor(Value(low, half, a, n), Value(low, half, b, n))
    decreases n
  {
    if n > 0 {
      ValueOfSum(low, half, plus, half(a), half(b), n - 1);
      XorPair(Value(low, half, half(a), n - 1), Value(low, half, half(b), n - 1),
              Value(low, half, a, n), Value(low, half, b, n), low(a), low(b));
    }
  }

  lemma {:induction false} ValueSplits<W>(low: W -> bool, half: W -> W, v: W, n: nat, k: nat)
    ensures Value(low, half, v, n + k) == Value(low, half, v, n) + Up(Value(low, half, Halves(half, v, n), k), n)
    decreases n
  {
    if n > 0 {
      ValueSplits(low, half, half(v), n - 1, k);
    }
  }

  lemma {:induction false} HalvesAgain<W>(half: W -> W, v: W, n: nat, k: nat)
    ensures Halves(half, v, n + k) == Halves(half, Halves(half, v, n), k)
    decreases n
  {
    if n > 0 {
      HalvesAgain(half, half(v), n - 1, k);
    }
  }

  lemma HalvesByBytes<W(!new)>(half: W -> W, byteDown: W -> W, v: W)
    requires forall x: W :: Halves(half, x, 8) == byteDown(x)
    ensures Halves(half, v, 32) == byteDown(byteDown(byteDown(byteDown(v))))
  {
    HalvesAgain(half, v, 8, 24);
    HalvesAgain(half, byteDown(v), 8, 16);
    HalvesAgain(half, byteDown(byteDown(v)), 8, 8);
  }

  lemma EightHalves<W>(half: W -> W, v: W)
    ensures Halves(half, v, 8) == half(half(half(half(half(half(half(half(v))))))))
  {
    HalvesAgain(half, v, 2, 6);
    HalvesAgain(half, half(half(v)), 2, 4);
    HalvesAgain(half, half(half(half(half(v)))), 2, 2);
  }

  lemma {:induction false} UpOfZero(n: nat)
    ensures Up(0, n) == 0
  {
    if n > 0 {
      UpOfZero(n - 1);
    }
  }

  lemma ValueOfHalf<W>(low: W -> bool, half: W -> W, zero: W, v: W)
    requires Halves(half, v, 32) == zero && !low(zero)
    ensures Value(low, half, v, 32) == Bit(low(v)) + 2 * Value(low, half, half(v), 32)
  {
    ValueSplits(low, half, half(v), 31, 1);
    assert Halves(half, half(v), 31) == zero;
    assert Value(low, half, zero, 1) == 0;
    UpOfZero(31);
  }

  lemma {:induction false} ValueBelow<W>(low: W -> bool, half: W -> W, v: W, n: nat)
    ensures Value(low, half, v, n) < Power(n)
    decreases n
  {
    if n > 0 {
      ValueBelow(low, half, half(v), n - 1);
    }
  }

  /** The lowest byte of a word, and the rest. */
  lemma ValueByByte<W>(low: W -> bool, half: W -> W, byte: W -> nat, byteDown: W -> W, v: W, n: nat)
    requires Value(low, half, v, BITS) == byte(v) && Halves(half, v, BITS) == byteDown(v)
    ensures Value(low, half, v, BITS + n) == byte(v) + 256 * Value(low, half, byteDown(v), n)
  {
    ValueSplits(low, half, v, BITS, n);
    UpEight(Value(low, half, byteDown(v), n));
  }

  lemma ValueOfBytes<W(!new)>(low: W -> bool, half: W -> W, byte: W -> nat, byteDown: W -> W, v: W, w: W)
    requires forall x: W :: Value(low, half, x, BITS) == byte(x) && Halves(half, x, BITS) == byteDown(x)
    requires w == byteDown(byteDown(v))
    ensures Value(low, half, v, BITS + (BITS + (BITS + BITS)))
         == byte(v) + 256 * (byte(byteDown(v)) + 256 * (byte(w) + 256 * byte(byteDown(w))))
  {
    ValueByByte(low, half, byte, byteDown, v, BITS + (BITS + BITS));
    ValueByByte(low, half, byte, byteDown, byteDown(v), BITS + BITS);
    ValueByByte(low, half, byte, byteDown, byteDown(byteDown(v)), BITS);
  }

  lemma ValueOfEight<W>(low: W -> bool, half: W -> W, v: W, b0: bool, b1: bool, b2: bool, b3: bool,
                        b4: bool, b5: bool, b6: bool, b7: bool)
    requires low(v) == b0 && low(half(v)) == b1 && low(half(half(v))) == b2 && low(half(half(half(v)))) == b3
    requires low(half(half(half(half(v))))) == b4 && low(half(half(half(half(half(v)))))) == b5
    requires low(half(half(half(half(half(half(v))))))) == b6 && low(half(half(half(half(half(half(half(v)))))))) == b7
    ensures Value(low, half, v, BITS)
         == Bit(b0) + 2 * Bit(b1) + 4 * Bit(b2) + 8 * Bit(b3) + 16 * Bit(b4) + 32 * Bit(b5) + 64 * Bit(b6)
            + 128 * Bit(b7)
  {
    var w := half(half(half(half(v))));
    ValueByFours(low, half, v, w);
    ValueOfFour(low, half, v);
    ValueOfFour(low, half, w);
  }

  lemma ValueByFours<W>(low: W -> bool, half: W -> W, v: W, w: W)
    requires w == half(half(half(half(v))))
    ensures Value(low, half, v, BITS) == Value(low, half, v, 4) + 16 * Value(low, half, w, 4)
  {
    ValueSplits(low, half, v, 4, 4);
    HalvesAgain(half, v, 2, 2);
    assert Up(Value(low, half, w, 4), 4) == 16 * Value(low, half, w, 4);
  }

  lemma ValueOfFour<W>(low: W -> bool, half: W -> W, v: W)
    ensures Value(low, half, v, 4)
         == Bit(low(v)) + 2 * Bit(low(half(v))) + 4 * Bit(low(half(half(v)))) + 8 * Bit(low(half(half(half(v)))))
  {
    assert Value(low, half, half(half(v)), 2) == Bit(low(half(half(v)))) + 2 * Bit(low(half(half(half(v)))));
  }

  // ----- 32 bits --------------------------------------------------------------------------------

  function Num(v: bv32): nat {
    Value(Low, Half, v, WIDTH)
  }

  lemma LowPlus(a: bv32, b: bv32)
    ensures Low(Plus(a, b)) == (Low(a) != Low(b))
  {
  }

  lemma HalfPlus(a: bv32, b: bv32)
    ensures Half(Plus(a, b)) == Plus(Half(a), Half(b))
  {
  }

  /** `a ^ b` */
  lemma NumOfXor(a: bv32, b: bv32)
    ensures Num(a ^ b) == Xor(Num(a), Num(b))
  {
    forall x: bv32, y: bv32
      ensures Low(Plus(x, y)) == (Low(x) != Low(y)) && Half(Plus(x, y)) == Plus(Half(x), Half(y))
    {
      LowPlus(x, y);
      HalfPlus(x, y);
    }
    ValueOfSum(Low, Half, Plus, a, b, WIDTH);
    assert Plus(a, b) == a ^ b;
  }

  function ByteDown(v: bv32): bv32 {
    v >> 8
  }

  lemma EightHalvesIsByteDown(v: bv32)
    ensures Half(Half(Half(Half(Half(Half(Half(Half(v)))))))) == ByteDown(v)
  {
  }

  /** Nothing is left of a word after 32 halvings. */
  lemma HalvesEnd(v: bv32)
    ensures Halves(Half, v, WIDTH) == 0
  {
    forall x: bv32
      ensures Halves(Half, x, 8) == ByteDown(x)
    {
      EightHalves(Half, x);
      EightHalvesIsByteDown(x);
    }
    HalvesByBytes(Half, ByteDown, v);
    FourBytesDown(v);
  }

  lemma FourBytesDown(v: bv32)
    ensures ByteDown(ByteDown(ByteDown(ByteDown(v)))) == 0
  {
  }

  /** `v >> 1` and `v & 1` */
  lemma NumOfHalf(v: bv32)
    ensures Num(v) == Bit(Low(v)) + 2 * Num(Half(v))
  {
    HalvesEnd(v);
    ValueOfHalf(Low, Half, 0, v);
  }

  lemma NumBelow(v: bv32)
    ensures Num(v) < 0x1_0000_0000
  {
    ValueBelow(Low, Half, v, WIDTH);
    Powers();
  }

  // ----- the numbers of given words -------------------------------------------------------------

  function LowByte(v: bv32): nat {
    Bit(v & 1 == 1) + 2 * Bit(v & 2 == 2) + 4 * Bit(v & 4 == 4) + 8 * Bit(v & 8 == 8)
    + 16 * Bit(v & 16 == 16) + 32 * Bit(v & 32 == 32) + 64 * Bit(v & 64 == 64) + 128 * Bit(v & 128 == 128)
  }

  lemma BitsOfByte(v: bv32)
    ensures Low(v) == (v & 1 == 1) && Low(Half(v)) == (v & 2 == 2) && Low(Half(Half(v))) == (v & 4 == 4)
    ensures Low(Half(Half(Half(v)))) == (v & 8 == 8) && Low(Half(Half(Half(Half(v))))) == (v & 16 == 16)
    ensures Low(Half(Half(Half(Half(Half(v)))))) == (v & 32 == 32)
    ensures Low(Half(Half(Half(Half(Half(Half(v))))))) == (v & 64 == 64)
    ensures Low(Half(Half(Half(Half(Half(Half(Half(v)))))))) == (v & 128 == 128)
  {
  }

  lemma ValueOfLowByte(v: bv32)
    ensures Value(Low, Half, v, BITS) == LowByte(v)
  {
    BitsOfByte(v);
    ValueOfEight(Low, Half, v, v & 1 == 1, v & 2 == 2, v & 4 == 4, v & 8 == 8,
                 v & 16 == 16, v & 32 == 32, v & 64 == 64, v & 128 == 128);
  }

  /** A word is its four bytes. */
  lemma NumByBytes(v: bv32, b0: nat, b1: nat, b2: nat, b3: nat)
    requires b0 == LowByte(v) && b1 == LowByte(v >> 8) && b2 == LowByte(v >> 16) && b3 == LowByte(v >> 24)
    ensures Num(v) == b0 + 256 * (b1 + 256 * (b2 + 256 * b3))
  {
    forall x: bv32
      ensures Value(Low, Half, x, BITS) == LowByte(x) && Halves(Half, x, BITS) == ByteDown(x)
    {
      ValueOfLowByte(x);
      EightHalves(Half, x);
      EightHalvesIsByteDown(x);
    }
    BytesDown(v);
    ValueOfBytes(Low, Half, LowByte, ByteDown, v, v >> 16);
  }

  lemma BytesDown(v: bv32)
    ensures ByteDown(v) == v >> 8 && ByteDown(ByteDown(v)) == v >> 16 && ByteDown(ByteDown(ByteDown(v))) == v >> 24
  {
  }

  lemma NumOfPolynomial()
    ensures Num(POLY) == POLYNOMIAL
  {
    NumByBytes(POLY, 0x20, 0x83, 0xb8, 0xed);
  }

  lemma Numbers()
    ensures Num(0xffffffff) == 0xffffffff && Num(0x51bd9f7d) == 0x51bd9f7d
    ensures Num(73) == 73 && Num(69) == 69 && Num(78) == 78 && Num(68) == 68
  {
    NumByBytes(0xffffffff, 0xff, 0xff, 0xff, 0xff);
    NumByBytes(0x51bd9f7d, 0x7d, 0x9f, 0xbd, 0x51);
    NumByBytes(73, 73, 0, 0, 0);
    NumByBytes(69, 69, 0, 0, 0);
    NumByBytes(78, 78, 0, 0, 0);
    NumByBytes(68, 68, 0, 0, 0);
  }

  lemma ValueOfByteDown<W>(low: W -> bool, half: W -> W, byte: W -> nat, byteDown: W -> W, zero: W, v: W)
    requires Value(low, half, v, BITS) == byte(v) && Halves(half, v, BITS) == byteDown(v)
    requires Halves(half, v, WIDTH) == zero && Value(low, half, zero, BITS) == 0
    ensures Value(low, half, v, WIDTH) == byte(v) + 256 * Value(low, half, byteDown(v), WIDTH)
  {
    ValueByByte(low, half, byte, byteDown, v, WIDTH);
    ValueSplits(low, half, v, WIDTH, BITS);
    UpOfZero(WIDTH);
  }

  lemma LowByteOfMask(v: bv32, m: bv32)
    requires m == v & 0xff
    ensures LowByte(m) == LowByte(v) < 256 && ByteDown(m) == 0
  {
  }

  lemma LowByteOfZero()
    ensures LowByte(0) == 0 && ByteDown(0) == 0
  {
  }

  /** A word is its lowest byte and 256 times the word that is left without it. */
  lemma NumOfByteDown(v: bv32)
    ensures Num(v) == LowByte(v) + 256 * Num(ByteDown(v))
  {
    ValueOfLowByte(v);
    EightHalves(Half, v);
    EightHalvesIsByteDown(v);
    HalvesEnd(v);
    ValueOfLowByte(0);
    LowByteOfZero();
    ValueOfByteDown(Low, Half, LowByte, ByteDown, 0, v);
  }

  lemma NumOfZero()
    ensures Num(0) == 0
  {
    NumOfByteDown(0);
    LowByteOfZero();
  }

  lemma PartsOf(n: nat, low: nat, rest: nat)
    requires n == low + 256 * rest && low < 256
    ensures n % 256 == low && n / 256 == rest
  {
  }

  /** `v >> 8` and `v & 0xff` */
  lemma NumOfParts(v: bv32, rest: bv32, low: bv32)
    requires rest == v >> 8 && low == v & 0xff
    ensures Num(rest) == Num(v) / 256 && Num(low) == Num(v) % 256
  {
    LowByteOfMask(v, low);
    NumOfByteDown(v);
    NumOfByteDown(low);
    NumOfZero();
    PartsOf(Num(v), LowByte(v), Num(rest));
  }

  function NumWord(v: bv32): Word {
    NumBelow(v);
    Num(v)
  }

  /** A word as the C code shifts it. */
  function Shifted(c: bv32): bv32 {
    if c & 0x1 == 1 then 0xedb88320 ^ (c >> 1) else c >> 1
  }

  lemma ShiftOfNumber(n: Word, low: bool, h: nat)
    requires n == Bit(low) + 2 * h
    ensures Shift(n) == if low then Xor(POLYNOMIAL, h) else h
  {
    assert n / 2 == h;
  }

  lemma NumOfShifted(c: bv32)
    ensures NumWord(Shifted(c)) == Shift(NumWord(c))
  {
    NumOfPolynomial();
    NumOfHalf(c);
    NumOfXor(POLY, Half(c));
    ShiftOfNumber(NumWord(c), Low(c), Num(Half(c)));
    ShiftedCases(c);
  }

  lemma ShiftedCases(c: bv32)
    ensures Shifted(c) == if Low(c) then POLY ^ Half(c) else Half(c)
  {
  }

  /** A byte enters the register by the machine's operators. */
  function Fed(c: bv32, b: bv32): bv32 {
    Shifted(Shifted(Shifted(Shifted(Shifted(Shifted(Shifted(Shifted(c ^ b))))))))
  }

  lemma NumOfFed(c: bv32, b: bv32, x: Byte)
    requires Num(b) == x
    ensures NumWord(Fed(c, b)) == FeedByte(NumWord(c), x)
  {
    NumOfStart(c, b, c ^ b, x);
    forall v: bv32
      ensures NumWord(Shifted(v)) == Shift(NumWord(v))
    {
      NumOfShifted(v);
    }
    EightSteps(NumWord, Shifted, c ^ b);
    ByteIsShifts(NumWord(c), x);
  }

  lemma EightSteps<W(!new)>(num: W -> Word, step: W -> W, v: W)
    requires forall w: W :: num(step(w)) == Shift(num(w))
    ensures num(step(step(step(step(step(step(step(step(v))))))))) == Shifts(num(v), BITS)
  {
    var w := step(step(step(step(v))));
    assert Shifts(num(v), BITS) == Shifts(num(step(v)), 7) == Shifts(num(step(step(v))), 6);
    assert Shifts(num(step(step(v))), 6) == Shifts(num(step(step(step(v)))), 5) == Shifts(num(w), 4);
    assert Shifts(num(w), 4) == Shifts(num(step(w)), 3) == Shifts(num(step(step(w))), 2);
  }

  lemma NumOfStart(c: bv32, b: bv32, v: bv32, x: Byte)
    requires v == c ^ b && Num(b) == x
    ensures NumWord(v) == XorWord(NumWord(c), x)
  {
    NumOfXor(c, b);
  }

  // ----- the CRC of the last chunk of every file ------------------------------------------------

  lemma AfterI()
    ensures Fed(0xffffffff, 73) == 0x22fde946
  {
  }

  lemma AfterE()
    ensures Fed(0x22fde946, 69) == 0x992bac53
  {
  }

  lemma AfterN()
    ensures Fed(0x992bac53, 78) == 0x639f4775
  {
  }

  lemma AfterD()
    ensures Fed(0x639f4775, 68) == 0x51bd9f7d
  {
  }

  lemma IendCourse(a: bv32, b: bv32, c: bv32, d: bv32)
    requires a == Fed(0xffffffff, 73) && b == Fed(a, 69) && c == Fed(b, 78) && d == Fed(c, 68)
    ensures d == 0x51bd9f7d
  {
    AfterI();
    AfterE();
    AfterN();
    AfterD();
  }

  lemma FourFed(c: bv32, a0: bv32, a1: bv32, a2: bv32, a3: bv32, p: seq<Byte>)
    requires |p| == 4
    requires Num(a0) == p[0] && Num(a1) == p[1] && Num(a2) == p[2] && Num(a3) == p[3]
    ensures NumWord(Fed(Fed(Fed(Fed(c, a0), a1), a2), a3)) == Feed(NumWord(c), p)
  {
    NumOfFed(c, a0, p[0]);
    NumOfFed(Fed(c, a0), a1, p[1]);
    NumOfFed(Fed(Fed(c, a0), a1), a2, p[2]);
    NumOfFed(Fed(Fed(Fed(c, a0), a1), a2), a3, p[3]);
    FoldFour(FeedByte, NumWord(c), p);
  }

  /** The CRC of the four letters IEND. */
  lemma CrcOfIend(p: seq<Byte>)
    requires p == [73, 69, 78, 68]
    ensures CrcOf(p) == 0xae426082
  {
    Numbers();
    var a, b, c := Fed(0xffffffff, 73), Fed(Fed(0xffffffff, 73), 69), Fed(Fed(Fed(0xffffffff, 73), 69), 78);
    IendCourse(a, b, c, Fed(c, 68));
    FourFed(0xffffffff, 73, 69, 78, 68, p);
  }

  // ----- the loop over the table, on the machine's words ----------------------------------------

  /** `~c` */
  lemma NumOfComplement(c: bv32)
    ensures Num(!c) == 0xffffffff - Num(c)
  {
    NumBelow(c);
    Powers();
    Numbers();
    NumOfXor(c, 0xffffffff);
    XorOnes(Num(c), WIDTH);
    ComplementIsXor(c);
  }

  lemma ComplementIsXor(c: bv32)
    ensures !c == c ^ 0xffffffff
  {
  }

  lemma {:induction false} XorOnes(a: nat, n: nat)
    requires a < Power(n)
    ensures Xor(a, Power(n) - 1) == Power(n) - 1 - a
    decreases n
  {
    if n > 0 {
      XorOnes(a / 2, n - 1);
      XorPair(a / 2, Power(n - 1) - 1, a, Power(n) - 1, a % 2 == 1, true);
    }
  }

  /** The table on the machine's words. */
  ghost predicate IsWordTable(table: seq<bv32>) {
    |table| == 256 && forall k: Byte :: NumWord(table[k]) == Shifts(k, BITS)
  }

  lemma WordIndex(crc: bv32, letter: bv32, sum: bv32, ix: bv32)
    requires sum == letter ^ crc && ix == sum & 0xff
    ensures Num(ix) == Xor(Num(letter), Num(crc)) % 256
  {
    NumOfXor(letter, crc);
    NumOfParts(sum, sum >> 8, ix);
  }

  lemma NumOfRest(crc: bv32, rest: bv32)
    requires rest == crc >> 8
    ensures Num(rest) == Num(crc) / 256
  {
    NumOfParts(crc, rest, crc & 0xff);
  }

  /** One turn of the loop, with every word on the way named. */
  lemma WordStep(crc: bv32, letter: bv32, x: Byte, ix: bv32, entry: bv32, rest: bv32, next: bv32)
    requires Num(letter) == x && ix == (letter ^ crc) & 0xff && rest == crc >> 8 && next == entry ^ rest
    requires Num(ix) < 256 ==> NumWord(entry) == Shifts(Num(ix), BITS)
    ensures Num(ix) < 256 && NumWord(next) == FeedByte(NumWord(crc), x)
  {
    WordIndex(crc, letter, letter ^ crc, ix);
    NumOfRest(crc, rest);
    NumOfXor(entry, rest);
    NamedStep(NumWord(crc), x, Num(ix), NumWord(entry), Num(rest), NumWord(next));
  }

  /** One turn of the loop, with the operators of the C code. */
  method WordTurn(table: array<bv32>, crc: bv32, letter: bv32, ghost x: Byte) returns (next: bv32)
    requires IsWordTable(table[..]) && Num(letter) == x
    ensures NumWord(next) == FeedByte(NumWord(crc), x)
  {
    var ix := (letter ^ crc) & 0xff;
    MaskedIsByte(letter ^ crc);
    var entry := EntryAt(table, Num(ix));
    next := entry ^ (crc >> 8);
    WordStep(crc, letter, x, ix, entry, crc >> 8, next);
  }

  method EntryAt(table: array<bv32>, k: Byte) returns (entry: bv32)
    requires IsWordTable(table[..])
    ensures NumWord(entry) == Shifts(k, BITS)
  {
    entry := table[k];
    assert entry == table[..][k];
  }

  /** `trell_png_crc` on the machine's words: it computes the CRC of the bytes that the letters stand for. */
  method PngCrcOnWords(table: array<bv32>, p: seq<bv32>, ghost bytes: seq<Byte>) returns (r: bv32)
    requires IsWordTable(table[..]) && |bytes| == |p| && forall i :: 0 <= i < |p| ==> Num(p[i]) == bytes[i]
    ensures NumWord(r) == CrcOf(bytes)
  {
    var crc: bv32 := 0xffffffff;
    Numbers();
    for i := 0 to |p|
      invariant NumWord(crc) == Feed(ALL_ONES, bytes[..i])
    {
      FeedNext(bytes, i);
      crc := WordTurn(table, crc, p[i], bytes[i]);
    }
    assert bytes[..|p|] == bytes;
    NumOfComplement(crc);
    r := !crc;
  }

  lemma MaskedIsByte(v: bv32)
    ensures Num(v & 0xff) < 256
  {
    NumOfParts(v, v >> 8, v & 0xff);
  }
}
