/** The CRC of the PNG encoder: the table, the loop over it, and the bitwise definition they implement. */
module Crc {
  type Byte = b: int | 0 <= b < 256

  /** An `unsigned int` of 32 bits. */
  type Word = w: int | 0 <= w < 0x1_0000_0000

  const POLYNOMIAL: Word := 0xedb88320
  const ALL_ONES: Word := 0xffffffff
  const BITS: nat := 8

  // ----- exclusive or, on numbers ---------------------------------------------------------------

  function Xor(a: nat, b: nat): nat
    decreases a + b
  {
    if a == 0 && b == 0 then 0 else (if a % 2 != b % 2 then 1 else 0) + 2 * Xor(a / 2, b / 2)
  }

  /** The lowest bit, and the rest. */
  lemma {:induction false} XorBits(a: nat, b: nat)
    ensures Xor(a, b) % 2 == (if a % 2 != b % 2 then 1 else 0)
    ensures Xor(a, b) / 2 == Xor(a / 2, b / 2)
  {
  }

  lemma {:induction false} XorZero(a: nat)
    ensures Xor(a, 0) == a
    decreases a
  {
    if a > 0 {
      XorZero(a / 2);
    }
  }

  lemma {:induction false} XorSwaps(a: nat, b: nat)
    ensures Xor(a, b) == Xor(b, a)
    decreases a + b
  {
    if a > 0 || b > 0 {
      XorSwaps(a / 2, b / 2);
    }
  }

  lemma {:induction false} XorAssociates(a: nat, b: nat, c: nat)
    ensures Xor(Xor(a, b), c) == Xor(a, Xor(b, c))
    decreases a + b + c
  {
    if a > 0 || b > 0 || c > 0 {
      XorBits(a, b);
      XorBits(b, c);
      XorBits(Xor(a, b), c);
      XorBits(a, Xor(b, c));
      XorAssociates(a / 2, b / 2, c / 2);
    }
  }

  /** Only equal numbers cancel. */
  lemma {:induction false} XorCancels(a: nat, b: nat)
    ensures Xor(a, b) == 0 <==> a == b
    decreases a + b
  {
    if a > 0 || b > 0 {
      XorCancels(a / 2, b / 2);
    }
  }

  lemma XorBack(a: nat, b: nat)
    ensures Xor(a, Xor(a, b)) == b
  {
    XorAssociates(a, a, b);
    XorCancels(a, a);
    XorSwaps(0, b);
    XorZero(b);
  }

  /** The pairs of a sum of sums may be exchanged. */
  lemma XorExchange(a: nat, b: nat, x: nat, y: nat)
    ensures Xor(Xor(a, b), Xor(x, y)) == Xor(Xor(a, x), Xor(b, y))
  {
    XorAssociates(a, b, Xor(x, y));
    XorAssociates(b, x, y);
    XorSwaps(b, x);
    XorAssociates(x, b, y);
    XorAssociates(a, x, Xor(b, y));
  }

  /** `m` with `n` zero bits below it. */
  function Up(m: nat, n: nat): nat
    decreases n
  {
    if n == 0 then m else 2 * Up(m, n - 1)
  }

  function Power(n: nat): nat {
    Up(1, n)
  }

  lemma {:induction false} XorBelow(a: nat, b: nat, n: nat)
    requires a < Power(n) && b < Power(n)
    ensures Xor(a, b) < Power(n)
  {
    if n > 0 && (a > 0 || b > 0) {
      XorBelow(a / 2, b / 2, n - 1);
    }
  }

  lemma UpEight(m: nat)
    ensures Up(m, 8) == m * 256
  {
    assert Up(m, 4) == m * 16;
  }

  lemma {:induction false} UpAgain(m: nat, n: nat, k: nat)
    ensures Up(m, n + k) == Up(Up(m, n), k)
    decreases k
  {
    if k > 0 {
      UpAgain(m, n, k - 1);
    }
  }

  lemma Powers()
    ensures Power(8) == 256 && Power(32) == 0x1_0000_0000
  {
    UpEight(1);
    UpAgain(1, 8, 8);
    UpEight(256);
    UpAgain(1, 16, 8);
    UpEight(65536);
    UpAgain(1, 24, 8);
    UpEight(16777216);
  }

  /** Exclusive or of bytes and of words. */
  function XorByte(a: Byte, b: Byte): Byte {
    Powers();
    XorBelow(a, b, 8);
    Xor(a, b)
  }

  function XorWord(a: Word, b: Word): Word {
    Powers();
    XorBelow(a, b, 32);
    Xor(a, b)
  }

  /** A number and another that stands above it join without carrying. */
  lemma {:induction false} XorJoins(a: nat, m: nat, n: nat)
    requires a < Power(n)
    ensures Xor(a, Up(m, n)) == a + Up(m, n)
    decreases n
  {
    if n == 0 {
      XorSwaps(0, m);
      XorZero(m);
    } else {
      XorBits(a, Up(m, n));
      XorJoins(a / 2, m, n - 1);
    }
  }

  // ----- folding --------------------------------------------------------------------------------

  function Fold<S, T>(f: (S, T) -> S, s: S, p: seq<T>): S
    decreases |p|
  {
    if p == [] then s else f(Fold(f, s, p[..|p| - 1]), p[|p| - 1])
  }

  lemma {:induction false} FoldJoins<S, T>(f: (S, T) -> S, s: S, p: seq<T>, q: seq<T>)
    ensures Fold(f, s, p + q) == Fold(f, Fold(f, s, p), q)
    decreases |q|
  {
    if q == [] {
      assert p + q == p;
    } else {
      var r := p + q;
      assert r[..|r| - 1] == p + q[..|q| - 1];
      FoldJoins(f, s, p, q[..|q| - 1]);
    }
  }

  lemma FoldFirst<S, T>(f: (S, T) -> S, s: S, p: seq<T>)
    requires p != []
    ensures Fold(f, s, p) == Fold(f, f(s, p[0]), p[1..])
  {
    assert p == p[..1] + p[1..];
    FoldJoins(f, s, p[..1], p[1..]);
    assert p[..1][..0] == [];
  }

  lemma FoldFour<S, T>(f: (S, T) -> S, s: S, p: seq<T>)
    requires |p| == 4
    ensures Fold(f, s, p) == f(f(f(f(s, p[0]), p[1]), p[2]), p[3])
  {
    FoldFirst(f, s, p);
    FoldFirst(f, f(s, p[0]), p[1..]);
    FoldFirst(f, f(f(s, p[0]), p[1]), p[2..]);
    FoldFirst(f, f(f(f(s, p[0]), p[1]), p[2]), p[3..]);
  }

  /** Where one step never makes different states equal, no number of steps does. */
  lemma {:induction false} FoldKeepsApart<S(!new), T(!new)>(f: (S, T) -> S, s: S, t: S, p: seq<T>)
    requires forall u: S, v: S, x: T :: u != v ==> f(u, x) != f(v, x)
    requires s != t
    ensures Fold(f, s, p) != Fold(f, t, p)
    decreases |p|
  {
    if p != [] {
      FoldKeepsApart(f, s, t, p[..|p| - 1]);
    }
  }

  /** The lowest `n` bits of a number, the lowest first. */
  function Bits(r: nat, n: nat): seq<bool>
    decreases n
  {
    if n == 0 then [] else [r % 2 == 1] + Bits(r / 2, n - 1)
  }

  // ----- definition, bit by bit -----------------------------------------------------------------

  /** One bit enters the register. */
  function FeedBit(c: Word, bit: bool): Word {
    if (c % 2 == 1) != bit then XorWord(POLYNOMIAL, c / 2) else c / 2
  }

  /** The bits of a byte enter the register, the lowest first. */
  function FeedByte(c: Word, b: Byte): Word {
    Fold(FeedBit, c, Bits(b, BITS))
  }

  function Feed(c: Word, p: seq<Byte>): Word {
    Fold(FeedByte, c, p)
  }

  /** The register starts as all ones, and its ones' complement is the check value: section 3.4 of RFC 2083. */
  function CrcOf(p: seq<Byte>): Word {
    ALL_ONES - Feed(ALL_ONES, p)
  }

  // ----- the table ------------------------------------------------------------------------------

  function Shift(c: Word): Word {
    if c % 2 == 1 then XorWord(POLYNOMIAL, c / 2) else c / 2
  }

  function Shifts(c: Word, n: nat): Word
    decreases n
  {
    if n == 0 then c else Shifts(Shift(c), n - 1)
  }

  ghost predicate IsTable(table: seq<Word>) {
    |table| == 256 && forall k: Byte :: table[k] == Shifts(k, BITS)
  }

  /** The inner loop of the table's construction. */
  method TableEntry(j: Byte) returns (c: Word)
    ensures c == Shifts(j, BITS)
  {
    c := j;
    for i := 0 to 8
      invariant Shifts(c, BITS - i) == Shifts(j, BITS)
    {
      if c % 2 == 1 {
        c := XorWord(0xedb88320, c / 2);
      } else {
        c := c / 2;
      }
    }
  }

  /** The table that every server process makes for itself. */
  method MakeTable() returns (table: array<Word>)
    ensures fresh(table) && IsTable(table[..])
  {
    table := new Word[256];
    for j := 0 to 256
      invariant forall k: Byte :: k < j ==> table[k] == Shifts(k, BITS)
    {
      var c := TableEntry(j);
      table[j] := c;
    }
  }

  // ----- the loop over the table ----------------------------------------------------------------

  /** Feeding bits is shifting what they are added to. */
  lemma {:induction false} FeedIsShift(c: Word, r: Word, n: nat)
    requires r < Power(n)
    ensures Fold(FeedBit, c, Bits(r, n)) == Shifts(XorWord(c, r), n)
    decreases n
  {
    if n == 0 {
      XorZero(c);
    } else {
      FoldFirst(FeedBit, c, Bits(r, n));
      assert Bits(r, n)[1..] == Bits(r / 2, n - 1);
      FeedIsShift(FeedBit(c, r % 2 == 1), r / 2, n - 1);
      FeedOne(c, r);
    }
  }

  lemma FeedOne(c: Word, r: Word)
    ensures Shift(XorWord(c, r)) == XorWord(FeedBit(c, r % 2 == 1), r / 2)
  {
    XorBits(c, r);
    XorAssociates(POLYNOMIAL, c / 2, r / 2);
  }

  lemma ShiftAdds(a: Word, b: Word)
    ensures Shift(XorWord(a, b)) == XorWord(Shift(a), Shift(b))
  {
    var x, y := a / 2, b / 2;
    XorBits(a, b);
    if a % 2 == 1 && b % 2 == 1 {
      XorExchange(POLYNOMIAL, x, POLYNOMIAL, y);
      XorCancels(POLYNOMIAL, POLYNOMIAL);
      XorSwaps(0, Xor(x, y));
      XorZero(Xor(x, y));
    } else if a % 2 == 1 {
      XorAssociates(POLYNOMIAL, x, y);
    } else if b % 2 == 1 {
      XorSwaps(x, y);
      XorAssociates(POLYNOMIAL, y, x);
      XorSwaps(Xor(POLYNOMIAL, y), x);
    }
  }

  /** Shifts work on each bit alone. */
  lemma {:induction false} ShiftsAdd(a: Word, b: Word, n: nat)
    ensures Shifts(XorWord(a, b), n) == XorWord(Shifts(a, n), Shifts(b, n))
    decreases n
  {
    if n > 0 {
      ShiftAdds(a, b);
      ShiftsAdd(Shift(a), Shift(b), n - 1);
    }
  }

  /** The top bit of the polynomial is set, so a word that is not zero never shifts to zero. */
  lemma {:induction false} ShiftsKeepNonzero(a: Word, n: nat)
    requires a != 0
    ensures Shifts(a, n) != 0
    decreases n
  {
    if n > 0 {
      XorCancels(POLYNOMIAL, a / 2);
      ShiftsKeepNonzero(Shift(a), n - 1);
    }
  }

  /** Shifts push down what stands above zeros. */
  lemma {:induction false} PushDown(m: nat, n: nat)
    requires Up(m, n) <= ALL_ONES
    ensures Shifts(Up(m, n), n) == m
    decreases n
  {
    if n > 0 {
      PushDown(m, n - 1);
    }
  }

  lemma ByteIsShifts(c: Word, b: Byte)
    ensures FeedByte(c, b) == Shifts(XorWord(c, b), BITS)
  {
    Powers();
    FeedIsShift(c, b, BITS);
  }

  lemma JoinsByte(a: Byte, m: nat)
    ensures Xor(a, m * 256) == a + m * 256
  {
    Powers();
    UpEight(m);
    XorJoins(a, m, 8);
  }

  lemma PushByteDown(m: nat)
    requires m * 256 <= ALL_ONES
    ensures Shifts(m * 256, BITS) == m
  {
    UpEight(m);
    PushDown(m, BITS);
  }

  /** Only the lowest byte of a word meets a byte. */
  lemma ByteMeetsWord(b: Byte, low: Byte, m: nat)
    ensures Xor(b, low + m * 256) == Xor(XorByte(b, low), m * 256) == XorByte(b, low) + m * 256
  {
    JoinsByte(low, m);
    XorAssociates(b, low, m * 256);
    JoinsByte(XorByte(b, low), m);
  }

  /** What the table does to a byte at once is what the definition does bit by bit. */
  lemma TableFeedsByte(c: Word, b: Byte, low: Byte, m: nat, ix: Byte)
    requires c == low + m * 256 && ix == XorByte(b, low)
    ensures XorWord(Shifts(ix, BITS), m) == FeedByte(c, b)
  {
    ByteMeetsWord(b, low, m);
    XorSwaps(c, b);
    PushByteDown(m);
    ShiftsMeet(c, b, ix, m * 256, m, BITS);
    ByteIsShifts(c, b);
  }

  lemma ShiftsMeet(c: Word, b: Word, low: Word, high: Word, m: Word, n: nat)
    requires Xor(c, b) == Xor(low, high) && Shifts(high, n) == m
    ensures Shifts(XorWord(c, b), n) == XorWord(Shifts(low, n), m)
  {
    ShiftsAdd(low, high, n);
  }

  lemma LowByte(e: Byte, m: nat, x: nat)
    requires x == e + m * 256
    ensures x % 256 == e
  {
  }

  /** One turn of the loop below. */
  lemma TableStep(c: Word, b: Byte, ix: Byte)
    requires ix == Xor(b, c) % 256
    ensures XorWord(Shifts(ix, BITS), c / 256) == FeedByte(c, b)
  {
    var low, m := c % 256, c / 256;
    ByteMeetsWord(b, low, m);
    LowByte(XorByte(b, low), m, Xor(b, c));
    TableFeedsByte(c, b, low, m, ix);
  }

  /** The same with every value on the way named. */
  lemma NamedStep(c: Word, b: Byte, ix: Byte, entry: Word, rest: nat, next: Word)
    requires ix == Xor(b, c) % 256 && entry == Shifts(ix, BITS) && rest == c / 256 && next == Xor(entry, rest)
    ensures next == FeedByte(c, b)
  {
    TableStep(c, b, ix);
  }

  lemma FeedNext(p: seq<Byte>, i: nat)
    requires i < |p|
    ensures Feed(ALL_ONES, p[..i + 1]) == FeedByte(Feed(ALL_ONES, p[..i]), p[i])
  {
    assert p[..i + 1][..i] == p[..i];
  }

  /** The CRC of `length` bytes at `offset` of a buffer. */
  method PngCrc(table: array<Word>, p: array<Byte>, offset: nat, length: nat) returns (r: Word)
    requires IsTable(table[..]) && offset + length <= p.Length
    ensures r == CrcOf(p[offset..offset + length])
  {
    ghost var s := p[offset..offset + length];
    var crc: Word := 0xffffffff;
    for i := 0 to length
      invariant crc == Feed(ALL_ONES, s[..i])
    {
      var ix := Xor(p[offset + i], crc) % 256;
      FeedNext(s, i);
      TableStep(crc, s[i], ix);
      assert table[..][ix] == Shifts(ix, BITS);
      crc := XorWord(table[ix], crc / 256);
    }
    assert s[..length] == s;
    r := 0xffffffff - crc;
  }

  // ----- what the CRC is for --------------------------------------------------------------------

  lemma SameShifts(a: Word, b: Word)
    requires Shifts(a, BITS) == Shifts(b, BITS)
    ensures a == b
  {
    ShiftsAdd(a, b, BITS);
    XorCancels(Shifts(a, BITS), Shifts(b, BITS));
    XorCancels(a, b);
    if a != b {
      ShiftsKeepNonzero(XorWord(a, b), BITS);
    }
  }

  /** Registers that differ still differ after the same byte. */
  lemma ByteKeepsApart(c: Word, d: Word, b: Byte)
    requires c != d
    ensures FeedByte(c, b) != FeedByte(d, b)
  {
    ByteIsShifts(c, b);
    ByteIsShifts(d, b);
    if FeedByte(c, b) == FeedByte(d, b) {
      SameShifts(XorWord(c, b), XorWord(d, b));
      SameSum(c, d, b);
    }
  }

  lemma SameSum(a: nat, b: nat, x: nat)
    requires Xor(a, x) == Xor(b, x)
    ensures a == b
  {
    XorSwaps(a, x);
    XorSwaps(b, x);
    XorBack(x, a);
    XorBack(x, b);
  }

  /** If the registers differ by `m` after a byte, then before it they differed by `m` a byte higher and by
      the difference of the bytes. */
  lemma StepBack(c: Word, d: Word, x: Byte, y: Byte, m: nat)
    requires XorWord(FeedByte(c, x), FeedByte(d, y)) == m && m * 256 <= ALL_ONES
    ensures Xor(c, d) == XorByte(x, y) + m * 256
  {
    var a, b := XorWord(c, x), XorWord(d, y);
    ByteIsShifts(c, x);
    ByteIsShifts(d, y);
    ShiftsAdd(a, b, BITS);
    PushByteDown(m);
    SameShifts(XorWord(a, b), m * 256);
    XorExchange(c, x, d, y);
    SumMoves(Xor(c, d), Xor(x, y), m * 256);
    JoinsByte(XorByte(x, y), m);
  }

  lemma SumMoves(a: nat, b: nat, s: nat)
    requires Xor(a, b) == s
    ensures a == Xor(b, s)
  {
    XorSwaps(a, b);
    XorBack(b, a);
  }

  /** The difference before a step, from that of the letters and that after it. */
  ghost predicate StepsBack(f: (Word, Byte) -> Word, u: Word, v: Word, x: Byte, y: Byte) {
    var m := Xor(f(u, x), f(v, y));
    m * 256 <= ALL_ONES ==> Xor(u, v) == XorByte(x, y) + m * 256
  }

  /** Four letters that lead to the same state are the same. */
  lemma FourLetters(f: (Word, Byte) -> Word, c: Word, p: seq<Byte>, q: seq<Byte>)
    requires forall u: Word, v: Word, x: Byte, y: Byte :: StepsBack(f, u, v, x, y)
    requires |p| == 4 && |q| == 4 && Fold(f, c, p) == Fold(f, c, q)
    ensures p == q
  {
    FoldFour(f, c, p);
    FoldFour(f, c, q);
    var c1, d1 := f(c, p[0]), f(c, q[0]);
    var c2, d2 := f(c1, p[1]), f(d1, q[1]);
    var c3, d3 := f(c2, p[2]), f(d2, q[2]);
    XorCancels(f(c3, p[3]), f(d3, q[3]));
    XorCancels(c, c);
    assert StepsBack(f, c3, d3, p[3], q[3]) && StepsBack(f, c2, d2, p[2], q[2]);
    assert StepsBack(f, c1, d1, p[1], q[1]) && StepsBack(f, c, c, p[0], q[0]);
    XorCancels(p[0], q[0]);
    XorCancels(p[1], q[1]);
    XorCancels(p[2], q[2]);
    XorCancels(p[3], q[3]);
  }

  /** Four bytes that leave the same register are the same bytes. */
  lemma FourBytes(c: Word, p: seq<Byte>, q: seq<Byte>)
    requires |p| == 4 && |q| == 4 && Feed(c, p) == Feed(c, q)
    ensures p == q
  {
    forall u: Word, v: Word, x: Byte, y: Byte
      ensures StepsBack(FeedByte, u, v, x, y)
    {
      var m := Xor(FeedByte(u, x), FeedByte(v, y));
      if m * 256 <= ALL_ONES {
        StepBack(u, v, x, y, m);
      }
    }
    FourLetters(FeedByte, c, p, q);
  }

  lemma BytesKeepApart(c: Word, d: Word, p: seq<Byte>)
    requires c != d
    ensures Feed(c, p) != Feed(d, p)
  {
    forall u: Word, v: Word, x: Byte | u != v
      ensures FeedByte(u, x) != FeedByte(v, x)
    {
      ByteKeepsApart(u, v, x);
    }
    FoldKeepsApart(FeedByte, c, d, p);
  }

  lemma FeedJoins(p: seq<Byte>, q: seq<Byte>, r: seq<Byte>)
    ensures Feed(ALL_ONES, p + q + r) == Feed(Feed(Feed(ALL_ONES, p), q), r)
  {
    FoldJoins(FeedByte, ALL_ONES, p, q);
    FoldJoins(FeedByte, ALL_ONES, p + q, r);
  }

  /** Any damage that four consecutive bytes can hold changes the CRC. */
  lemma BurstsAreSeen(before: seq<Byte>, p: seq<Byte>, q: seq<Byte>, after: seq<Byte>)
    requires |p| == 4 && |q| == 4 && p != q
    ensures CrcOf(before + p + after) != CrcOf(before + q + after)
  {
    var c := Feed(ALL_ONES, before);
    FeedJoins(before, p, after);
    FeedJoins(before, q, after);
    if Feed(c, p) == Feed(c, q) {
      FourBytes(c, p, q);
    }
    BytesKeepApart(Feed(c, p), Feed(c, q), after);
  }
}
