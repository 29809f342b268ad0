/** The bit-by-bit CRC-32C of the key ceremony (Appendix A of RFC 9260): the reflected
    polynomial 0x82F63B78, all-ones start value, complemented result. Python integers are
    unbounded; 64-bit vectors stand for them, and every state is proved to fit 32 bits. */
module Crc32c {

  type Byte = b: bv64 | b <= 0xFF
  type Word = v: bv64 | v <= 0xFFFFFFFF

  const POLYNOMIAL: Word := 0x82F63B78
  const ONES: Word := 0xFFFFFFFF

  // The bit operations have names so that proofs about whole messages can leave them folded.

  function Xor(u: Word, v: Word): Word { u ^ v }

  function Up8(w: Word): Word { (w << 8) & 0xFFFFFFFF }

  /** One turn of the inner loop. */
  function Shift(v: Word): Word {
    (v >> 1) ^ (if v & 1 == 1 then 0x82F63B78 else 0)
  }

  function Shifts(v: Word, n: nat): Word
    decreases n
  {
    if n == 0 then v else Shifts(Shift(v), n - 1)
  }

  /** One turn of the outer loop. */
  function FeedByte(v: Word, b: Byte): Word {
    Shifts(Xor(v, b), 8)
  }

  function Feed(v: Word, data: seq<Byte>): Word
    decreases data
  {
    if data == [] then v else Feed(FeedByte(v, data[0]), data[1..])
  }

  function Checksum(data: seq<Byte>): Word {
    Xor(Feed(ONES, data), ONES)
  }

  // ---------------------------------------------------------------- the loop

  method Crc32c(data: seq<Byte>) returns (r: bv64)
    ensures r == Checksum(data)
    ensures r <= 0xFFFFFFFF
  {
    hide Shift, Xor;
    var value: Word := ONES;
    var i := 0;
    while i < |data|
      invariant 0 <= i <= |data|
      invariant Feed(value, data[i..]) == Feed(ONES, data)
    {
      assert data[i..][0] == data[i] && data[i..][1..] == data[i + 1..];
      value := Xor(value, data[i]);
      ghost var start := value;
      var k := 0;
      while k < 8
        invariant 0 <= k <= 8
        invariant Shifts(value, 8 - k) == Shifts(start, 8)
      {
        value := Shift(value);
        k := k + 1;
      }
      i := i + 1;
    }
    assert data[i..] == [];
    r := Xor(value, ONES);
  }

  lemma CheckStates123()
    ensures FeedByte(0xFFFFFFFF, 0x31) == 0x6F0A661C
    ensures FeedByte(0x6F0A661C, 0x32) == 0x8CAA3B9F
    ensures FeedByte(0x8CAA3B9F, 0x33) == 0xEF84D04D
  {
  }

  lemma CheckStates456()
    ensures FeedByte(0xEF84D04D, 0x34) == 0x09C50B11
    ensures FeedByte(0x09C50B11, 0x35) == 0xE72EDCCA
    ensures FeedByte(0xE72EDCCA, 0x36) == 0xBECA8E79
  {
  }

  lemma CheckStates789()
    ensures FeedByte(0xBECA8E79, 0x37) == 0xEDBD6815
    ensures FeedByte(0xEDBD6815, 0x38) == 0x9F787F65
    ensures FeedByte(0x9F787F65, 0x39) == 0x1CF96D7C
  {
  }

  /** The published check value of CRC-32C: the checksum of the digits 1 to 9. */
  lemma CheckValue()
    ensures Checksum([0x31, 0x32, 0x33, 0x34, 0x35, 0x36, 0x37, 0x38, 0x39]) == 0xE3069283
  {
    hide FeedByte, Feed, Xor;
    var a: seq<Byte>, b: seq<Byte>, c: seq<Byte> := [0x31, 0x32, 0x33], [0x34, 0x35, 0x36], [0x37, 0x38, 0x39];
    assert [0x31, 0x32, 0x33, 0x34, 0x35, 0x36, 0x37, 0x38, 0x39] == a + (b + c);
    assert Feed(ONES, a + (b + c)) == Feed(0xEF84D04D, b + c) by { CheckStates123(); FeedThree(ONES, a, b + c); }
    assert Feed(0xEF84D04D, b + c) == Feed(0xBECA8E79, c) by { CheckStates456(); FeedThree(0xEF84D04D, b, c); }
    assert Feed(0xBECA8E79, c) == 0x1CF96D7C by {
      CheckStates789();
      FeedThree(0xBECA8E79, c, []);
      assert c + [] == c;
      FeedNothing(0x1CF96D7C);
    }
    CheckEnd();
  }

  lemma FeedNothing(v: Word)
    ensures Feed(v, []) == v
  {
  }

  lemma CheckEnd()
    ensures Xor(0x1CF96D7C, ONES) == 0xE3069283
  {
  }

  lemma FeedThree(v: Word, x: seq<Byte>, rest: seq<Byte>)
    requires |x| == 3
    ensures Feed(v, x + rest) == Feed(FeedByte(FeedByte(FeedByte(v, x[0]), x[1]), x[2]), rest)
  {
    hide FeedByte;
    var t := x + rest;
    var a := FeedByte(v, x[0]);
    var b := FeedByte(a, x[1]);
    assert Feed(v, t) == Feed(a, t[1..]);
    assert t[1..][0] == x[1] && Feed(a, t[1..]) == Feed(b, t[1..][1..]);
    assert t[1..][1..][0] == x[2] && t[1..][1..][1..] == rest;
  }

  // ---------------------------------------------------------------- structure of the state map

  lemma ShiftInjective(u: Word, v: Word)
    requires Shift(u) == Shift(v)
    ensures u == v
  {
  }

  lemma XorHalves(u: Word, v: Word)
    ensures (u ^ v) >> 1 == (u >> 1) ^ (v >> 1)
    ensures (u ^ v) & 1 == (u & 1) ^ (v & 1)
    ensures u & 1 == 0 || u & 1 == 1
  {
  }

  lemma XorTogether(a: Word, b: Word, p: Word)
    ensures (a ^ p) ^ (b ^ p) == (a ^ b) ^ 0
    ensures (a ^ p) ^ (b ^ 0) == (a ^ b) ^ p
    ensures (a ^ 0) ^ (b ^ p) == (a ^ b) ^ p
  {
  }

  lemma ShiftLinear(u: Word, v: Word)
    ensures Shift(Xor(u, v)) == Xor(Shift(u), Shift(v))
  {
    XorHalves(u, v);
    XorHalves(v, u);
    XorTogether(u >> 1, v >> 1, POLYNOMIAL);
  }

  lemma {:induction false} ShiftsInjective(u: Word, v: Word, n: nat)
    requires Shifts(u, n) == Shifts(v, n)
    ensures u == v
    decreases n
  {
    hide Shift;
    if n > 0 {
      ShiftsInjective(Shift(u), Shift(v), n - 1);
      ShiftInjective(u, v);
    }
  }

  lemma {:induction false} ShiftsLinear(u: Word, v: Word, n: nat)
    ensures Shifts(Xor(u, v), n) == Xor(Shifts(u, n), Shifts(v, n))
    decreases n
  {
    hide Shift, Xor;
    if n > 0 {
      ShiftLinear(u, v);
      ShiftsLinear(Shift(u), Shift(v), n - 1);
    }
  }

  lemma {:induction false} ShiftsAdd(v: Word, m: nat, n: nat)
    ensures Shifts(v, m + n) == Shifts(Shifts(v, m), n)
    decreases m
  {
    hide Shift;
    if m > 0 { ShiftsAdd(Shift(v), m - 1, n); }
  }

  /** The checksum state composes over concatenation. */
  lemma {:induction false} FeedAppend(v: Word, a: seq<Byte>, b: seq<Byte>)
    ensures Feed(v, a + b) == Feed(Feed(v, a), b)
    decreases a
  {
    hide FeedByte;
    if a == [] {
      assert a + b == b;
    } else {
      assert (a + b)[1..] == a[1..] + b;
      FeedAppend(FeedByte(v, a[0]), a[1..], b);
    }
  }

  lemma XorCancels(u: Word, v: Word, b: Word)
    requires Xor(u, b) == Xor(v, b)
    ensures u == v
  {
  }

  lemma {:induction false} FeedInjective(u: Word, v: Word, data: seq<Byte>)
    requires Feed(u, data) == Feed(v, data)
    ensures u == v
    decreases data
  {
    hide Shifts, Xor;
    if data != [] {
      FeedInjective(FeedByte(u, data[0]), FeedByte(v, data[0]), data[1..]);
      ShiftsInjective(Xor(u, data[0]), Xor(v, data[0]), 8);
      XorCancels(u, v, data[0]);
    }
  }

  // ---------------------------------------------------------------- four bytes act as one word

  /** Up to four bytes, first byte lowest. */
  function Pack(x: seq<Byte>): Word {
    if x == [] then 0 else Xor(x[0], Up8(Pack(x[1..])))
  }

  /** `w` takes at most `n` bytes. */
  predicate Fits(n: nat, w: Word) {
    if n == 0 then w == 0 else if n == 1 then w <= 0xFF else if n == 2 then w <= 0xFFFF
    else n == 3 ==> w <= 0xFFFFFF
  }

  lemma FitsStep(n: nat, a: Byte, u: Word)
    requires n <= 3 && Fits(n, u)
    ensures Fits(n + 1, Xor(a, Up8(u))) && Fits(3, u)
  {
  }

  lemma {:induction false} PackFits(x: seq<Byte>)
    requires |x| <= 3
    ensures Fits(|x|, Pack(x))
  {
    hide Xor, Up8, Fits;
    if x == [] {
      assert Fits(0, 0) by { FitsNone(); }
    } else {
      PackFits(x[1..]);
      FitsStep(|x| - 1, x[0], Pack(x[1..]));
    }
  }

  lemma FitsNone()
    ensures Fits(0, 0)
  {
  }

  lemma PackSplit(a: Byte, u: Word, b: Byte, v: Word)
    requires Fits(3, u) && Fits(3, v) && Xor(a, Up8(u)) == Xor(b, Up8(v))
    ensures a == b && u == v
  {
  }

  lemma {:induction false} PackInjective(x: seq<Byte>, y: seq<Byte>)
    requires |x| == |y| <= 4 && Pack(x) == Pack(y)
    ensures x == y
  {
    hide Xor, Up8, Fits;
    if x != [] {
      var u, v := Pack(x[1..]), Pack(y[1..]);
      PackFits(x[1..]);
      PackFits(y[1..]);
      FitsStep(|x| - 1, x[0], u);
      FitsStep(|x| - 1, y[0], v);
      PackSplit(x[0], u, y[0], v);
      PackInjective(x[1..], y[1..]);
      assert x == [x[0]] + x[1..] && y == [y[0]] + y[1..];
    }
  }

  /** Eight zero bits shift out without touching the polynomial. */
  lemma ZeroByte(w: Word)
    requires Fits(3, w)
    ensures Shifts(Up8(w), 8) == w
  {
  }

  lemma XorLaws(s: Word, b: Word, w: Word)
    ensures Xor(s, Xor(b, w)) == Xor(Xor(s, b), w)
    ensures Xor(s, 0) == s
    ensures Xor(s, b) == Xor(b, s)
  {
  }

  /** Feeding at most four bytes is one XOR followed by shifts. */
  lemma {:induction false} FeedPacked(s: Word, x: seq<Byte>)
    requires |x| <= 4
    ensures Feed(s, x) == Shifts(Xor(s, Pack(x)), 8 * |x|)
    decreases x
  {
    hide Shift, Xor, Up8, Fits;
    if x == [] {
      XorLaws(s, 0, 0);
    } else {
      var b, w := x[0], Pack(x[1..]);
      PackFits(x[1..]);
      FitsStep(|x| - 1, b, w);
      var t := Shifts(Xor(s, b), 8);
      FeedPacked(t, x[1..]);
      assert Xor(t, w) == Shifts(Xor(Xor(s, b), Up8(w)), 8) by {
        ZeroByte(w);
        ShiftsLinear(Xor(s, b), Up8(w), 8);
      }
      XorLaws(s, b, Up8(w));
      ShiftsAdd(Xor(s, Pack(x)), 8, 8 * |x[1..]|);
    }
  }

  /** Messages of equal length that differ only inside a window of at most four consecutive
      bytes always have different checksums. */
  lemma BurstDetected(prefix: seq<Byte>, x: seq<Byte>, y: seq<Byte>, suffix: seq<Byte>)
    requires |x| == |y| <= 4
    ensures Checksum(prefix + x + suffix) == Checksum(prefix + y + suffix) <==> x == y
  {
    hide Feed, Shifts, Pack, Xor;
    if Checksum(prefix + x + suffix) == Checksum(prefix + y + suffix) {
      XorCancels(Feed(ONES, prefix + x + suffix), Feed(ONES, prefix + y + suffix), ONES);
      FeedAppend(ONES, prefix + x, suffix);
      FeedAppend(ONES, prefix + y, suffix);
      FeedInjective(Feed(ONES, prefix + x), Feed(ONES, prefix + y), suffix);
      var s := Feed(ONES, prefix);
      FeedAppend(ONES, prefix, x);
      FeedAppend(ONES, prefix, y);
      FeedPacked(s, x);
      FeedPacked(s, y);
      ShiftsInjective(Xor(s, Pack(x)), Xor(s, Pack(y)), 8 * |x|);
      XorLaws(s, Pack(x), 0);
      XorLaws(s, Pack(y), 0);
      XorCancels(Pack(x), Pack(y), s);
      PackInjective(x, y);
    }
  }

  // ---------------------------------------------------------------- five bytes are too many

  function Unpack(w: Word): seq<Byte> {
    [w & 0xFF, (w >> 8) & 0xFF, (w >> 16) & 0xFF, (w >> 24) & 0xFF]
  }

  lemma UnpackedWord(w: Word)
    ensures Xor(w & 0xFF, Up8(Xor((w >> 8) & 0xFF, Up8(Xor((w >> 16) & 0xFF, Up8(Xor((w >> 24) & 0xFF, Up8(0))))))))
                == w
  {
  }

  lemma PackUnpack(w: Word)
    ensures Pack(Unpack(w)) == w
  {
    hide Xor, Up8;
    UnpackedWord(w);
    var x := Unpack(w);
    assert x[1..][1..][1..][1..] == [];
    assert Pack(x[1..][1..][1..]) == Xor(x[3], Up8(0));
    assert Pack(x[1..][1..]) == Xor(x[2], Up8(Pack(x[1..][1..][1..])));
  }

  /** The bound of four is exact: whatever surrounds them, five bytes with a chosen other
      first byte can be completed to the same checksum. */
  lemma FiveBytesCollide(prefix: seq<Byte>, x: seq<Byte>, first: Byte, suffix: seq<Byte>) returns (y: seq<Byte>)
    requires |x| == 5 && first != x[0]
    ensures |y| == 5 && y != x && y[0] == first
    ensures Checksum(prefix + x + suffix) == Checksum(prefix + y + suffix)
  {
    hide Shifts, Pack, Xor, FeedByte, Unpack;
    var s := Feed(ONES, prefix);
    var t, u := FeedByte(s, x[0]), FeedByte(s, first);
    var tail := Unpack(Xor(u, Xor(t, Pack(x[1..]))));
    assert |tail| == 4 by { UnpackLength(Xor(u, Xor(t, Pack(x[1..])))); }
    y := [first] + tail;
    PackUnpack(Xor(u, Xor(t, Pack(x[1..]))));
    XorUndo(u, Xor(t, Pack(x[1..])));
    FeedPacked(t, x[1..]);
    FeedPacked(u, tail);
    assert y[1..] == tail;
    assert Feed(s, x) == Feed(s, y);
    FeedAppend(ONES, prefix + x, suffix);
    FeedAppend(ONES, prefix + y, suffix);
    FeedAppend(ONES, prefix, x);
    FeedAppend(ONES, prefix, y);
  }

  lemma UnpackLength(w: Word)
    ensures |Unpack(w)| == 4
  {
  }

  lemma XorUndo(u: Word, w: Word)
    ensures Xor(u, Xor(u, w)) == w
  {
  }
}
