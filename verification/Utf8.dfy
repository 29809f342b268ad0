/** UTF-8 as Python's strict codec implements it: surrogates have no encoding and
    overlong or out-of-range byte sequences do not decode. */
module Utf8 {
  import opened Wrappers
  import opened Text

  type Byte = b: int | 0 <= b < 256
  type Bytes = seq<Byte>

  /** The bytes of one code point (1 to 4 of them). */
  function EncodeCode(c: Code): (b: Bytes)
    ensures 1 <= |b| <= 4
  {
    if c < 0x80 then [c]
    else if c < 0x800 then [0xC0 + c / 64, 0x80 + c % 64]
    else if c < 0x10000 then [0xE0 + c / 4096, 0x80 + c / 64 % 64, 0x80 + c % 64]
    else [0xF0 + c / 262144, 0x80 + c / 4096 % 64, 0x80 + c / 64 % 64, 0x80 + c % 64]
  }

  /** `text.encode("utf-8")`; None is UnicodeEncodeError. */
  function Encode(t: Text): (r: Option<Bytes>) {
    if t == [] then Some([])
    else if IsSurrogate(t[0]) then None
    else match Encode(t[1..])
      case None => None
      case Some(rest) => Some(EncodeCode(t[0]) + rest)
  }

  predicate IsTail(b: Byte) {
    0x80 <= b < 0xC0
  }

  /** The first code point and the number of bytes it takes; None is UnicodeDecodeError. */
  function DecodeCode(b: Bytes): (r: Option<(Code, nat)>)
    requires b != []
    ensures r.Some? ==> 1 <= r.value.1 <= |b| && !IsSurrogate(r.value.0)
  {
    var b0: int := b[0];
    var b1: int := if |b| >= 2 && IsTail(b[1]) then b[1] - 0x80 else -1;
    var b2: int := if |b| >= 3 && IsTail(b[2]) then b[2] - 0x80 else -1;
    var b3: int := if |b| >= 4 && IsTail(b[3]) then b[3] - 0x80 else -1;
    if b0 < 0x80 then Some((b0, 1))
    else if 0xC2 <= b0 < 0xE0 && b1 >= 0 then Some(((b0 - 0xC0) * 64 + b1, 2))
    else if 0xE0 <= b0 < 0xF0 && b1 >= 0 && b2 >= 0 && (b0 == 0xE0 ==> b1 >= 0x20) && (b0 == 0xED ==> b1 < 0x20) then
      Some(((b0 - 0xE0) * 4096 + b1 * 64 + b2, 3))
    else if 0xF0 <= b0 <= 0xF4 && b1 >= 0 && b2 >= 0 && b3 >= 0
            && (b0 == 0xF0 ==> b1 >= 0x10) && (b0 == 0xF4 ==> b1 < 0x10) then
      Some(((b0 - 0xF0) * 262144 + b1 * 4096 + b2 * 64 + b3, 4))
    else None
  }

  /** `body.decode("utf-8")` */
  function Decode(b: Bytes): (r: Option<Text>) {
    if b == [] then Some([])
    else match DecodeCode(b)
      case None => None
      case Some((c, n)) =>
        match Decode(b[n..])
        case None => None
        case Some(rest) => Some([c] + rest)
  }

  /** Base-64 digits are unique, which is what makes both directions of the codec work. */
  lemma SplitDigits(c: int, hi: int, lo: int)
    requires 0 <= lo < 64 && c == hi * 64 + lo
    ensures c / 64 == hi && c % 64 == lo
  {
  }

  lemma DecodeEncodedCode(c: Code, rest: Bytes)
    requires !IsSurrogate(c)
    ensures DecodeCode(EncodeCode(c) + rest) == Some((c, |EncodeCode(c)|))
  {
    var b := EncodeCode(c) + rest;
    var q1, q2, q3 := c / 64, c / 4096, c / 262144;
    assert q2 == q1 / 64 && q3 == q2 / 64;
    if 0x80 <= c {
      assert forall i | 0 <= i < |EncodeCode(c)| :: b[i] == EncodeCode(c)[i];
      assert c == q1 * 64 + c % 64;
      if 0x800 <= c {
        assert q1 == q2 * 64 + q1 % 64;
        if 0x10000 <= c {
          assert q2 == q3 * 64 + q2 % 64;
        }
      }
    }
  }

  lemma EncodeDecodedCode(b: Bytes)
    requires b != [] && DecodeCode(b).Some?
    ensures var (c, n) := DecodeCode(b).value; EncodeCode(c) == b[..n]
  {
    var (c, n) := DecodeCode(b).value;
    if n == 2 {
      SplitDigits(c, b[0] - 0xC0, b[1] - 0x80);
    } else if n == 3 {
      var q: int := (b[0] - 0xE0 as int) * 64 + (b[1] - 0x80);
      SplitDigits(c, q, b[2] - 0x80);
      SplitDigits(q, b[0] - 0xE0, b[1] - 0x80);
      assert c / 4096 == q / 64;
    } else if n == 4 {
      var q: int := (b[0] - 0xF0 as int) * 64 + (b[1] - 0x80);
      var r: int := q * 64 + (b[2] - 0x80);
      SplitDigits(c, r, b[3] - 0x80);
      SplitDigits(r, q, b[2] - 0x80);
      SplitDigits(q, b[0] - 0xF0, b[1] - 0x80);
      assert c / 4096 == r / 64;
      assert c / 262144 == q / 64;
    }
  }

  /** One character of each length: U+0024, U+00A2, U+20AC and U+10348. */
  lemma EncodedLengths()
    ensures EncodeCode(0x24) == [0x24] && EncodeCode(0xA2) == [0xC2, 0xA2]
    ensures EncodeCode(0x20AC) == [0xE2, 0x82, 0xAC] && EncodeCode(0x10348) == [0xF0, 0x90, 0x8D, 0x88]
  {
  }

  lemma {:induction false} EncodeDefined(t: Text)
    ensures Encode(t).Some? <==> IsUnicode(t)
    ensures Encode(t).Some? && t != [] ==> Encode(t).value != []
  {
    hide EncodeCode;
    if t != [] {
      EncodeDefined(t[1..]);
      assert IsUnicode(t) <==> !IsSurrogate(t[0]) && IsUnicode(t[1..]) by {
        if !IsSurrogate(t[0]) && IsUnicode(t[1..]) {
          forall i | 0 <= i < |t| ensures !IsSurrogate(t[i]) {
            if i > 0 { assert t[i] == t[1..][i - 1]; }
          }
        }
      }
    }
  }

  lemma {:induction false} DecodeEncode(t: Text)
    requires Encode(t).Some?
    ensures Decode(Encode(t).value) == Some(t)
  {
    hide DecodeCode, EncodeCode;
    if t != [] {
      DecodeEncode(t[1..]);
      var head, rest := EncodeCode(t[0]), Encode(t[1..]).value;
      DecodeEncodedCode(t[0], rest);
      assert (head + rest)[|head|..] == rest;
      assert [t[0]] + t[1..] == t;
    }
  }

  lemma EncodeCons(c: Code, t: Text, head: Bytes, b: Bytes)
    requires !IsSurrogate(c) && EncodeCode(c) == head && Encode(t) == Some(b)
    ensures Encode([c] + t) == Some(head + b)
  {
  }

  /** Bytes that decode at all are exactly the encoding of what they decode to. */
  lemma {:induction false} EncodeDecode(b: Bytes)
    requires Decode(b).Some?
    ensures Encode(Decode(b).value) == Some(b)
  {
    hide DecodeCode, EncodeCode;
    if b != [] {
      var (c, n) := DecodeCode(b).value;
      EncodeDecode(b[n..]);
      EncodeDecodedCode(b);
      EncodeCons(c, Decode(b[n..]).value, b[..n], b[n..]);
      assert b[..n] + b[n..] == b;
    }
  }
}
