/** Python `str` values as sequences of code points, their ordering, and decimal spelling.
    A code point may be a surrogate: Python strings can hold them, UTF-8 cannot. */
module Text {

  type Code = c: int | 0 <= c <= 0x10FFFF
  type Text = seq<Code>

  predicate IsSurrogate(c: Code) {
    0xD800 <= c <= 0xDFFF
  }

  predicate IsUnicode(t: Text) {
    forall i | 0 <= i < |t| :: !IsSurrogate(t[i])
  }

  // ---------------------------------------------------------------- ordering

  /** Python's `<=` on strings: lexicographic by code point. */
  predicate LexLe(a: Text, b: Text) {
    a == [] || (b != [] && (a[0] < b[0] || (a[0] == b[0] && LexLe(a[1..], b[1..]))))
  }

  lemma {:induction false} LexAntisymmetric(a: Text, b: Text)
    requires LexLe(a, b) && LexLe(b, a)
    ensures a == b
  {
    if a != [] && b != [] {
      LexAntisymmetric(a[1..], b[1..]);
      assert a == [a[0]] + a[1..] && b == [b[0]] + b[1..];
    }
  }

  lemma {:induction false} LexTransitive(a: Text, b: Text, c: Text)
    requires LexLe(a, b) && LexLe(b, c)
    ensures LexLe(a, c)
  {
    if a != [] && b[0] == a[0] && b[0] == c[0] {
      LexTransitive(a[1..], b[1..], c[1..]);
    }
  }

  lemma {:induction false} LexTotal(a: Text, b: Text)
    ensures LexLe(a, b) || LexLe(b, a)
  {
    if a != [] && b != [] {
      LexTotal(a[1..], b[1..]);
    }
  }

  lemma {:induction false} LeastExists(ks: set<Text>) returns (k: Text)
    requires ks != {}
    ensures k in ks && forall j | j in ks :: LexLe(k, j)
  {
    k :| k in ks;
    LexTotal(k, k);
    if ks != {k} {
      var least := LeastExists(ks - {k});
      LexTotal(k, least);
      if LexLe(k, least) {
        forall j | j in ks - {k} ensures LexLe(k, j) { LexTransitive(k, least, j); }
      } else {
        k := least;
      }
    }
  }

  function Least(ks: set<Text>): (k: Text)
    requires ks != {}
    ensures k in ks && forall j | j in ks :: LexLe(k, j)
  {
    assert exists k :: k in ks && forall j | j in ks :: LexLe(k, j) by { var k := LeastExists(ks); }
    assert forall a, b | a in ks && b in ks && LexLe(a, b) && LexLe(b, a) :: a == b by {
      forall a, b | a in ks && b in ks && LexLe(a, b) && LexLe(b, a) ensures a == b {
        LexAntisymmetric(a, b);
      }
    }
    var k :| k in ks && forall j | j in ks :: LexLe(k, j);
    k
  }

  predicate StrictlySorted(s: seq<Text>) {
    forall i, j | 0 <= i < j < |s| :: LexLe(s[i], s[j]) && s[i] != s[j]
  }

  /** `sorted(keys)` for the keys of a dict. */
  function SortedKeys(ks: set<Text>): (s: seq<Text>)
    ensures forall k :: k in s <==> k in ks
  {
    if ks == {} then []
    else
      var k := Least(ks);
      [k] + SortedKeys(ks - {k})
  }

  /** Every key once, in ascending order. */
  lemma {:induction false} SortedKeysSorted(ks: set<Text>)
    ensures StrictlySorted(SortedKeys(ks))
  {
    if ks != {} {
      var k := Least(ks);
      SortedKeysSorted(ks - {k});
      assert forall j | j in SortedKeys(ks - {k}) :: LexLe(k, j) && k != j;
    }
  }

  lemma {:induction false} SortedKeysDistinct(ks: set<Text>)
    ensures var s := SortedKeys(ks); forall i, j | 0 <= i < j < |s| :: s[i] != s[j]
  {
    SortedKeysSorted(ks);
  }

  // ---------------------------------------------------------------- decimals

  predicate IsDigit(c: Code) {
    0x30 <= c <= 0x39
  }

  predicate AllDigits(t: Text) {
    forall i | 0 <= i < |t| :: IsDigit(t[i])
  }

  /** `str(n)` for a natural number: no leading zero unless n is zero. */
  function Decimal(n: nat): (t: Text)
    ensures |t| >= 1 && AllDigits(t)
    ensures t[0] == 0x30 ==> n == 0 && |t| == 1
  {
    if n < 10 then [0x30 + n] else Decimal(n / 10) + [0x30 + n % 10]
  }

  /** `int(digits)` */
  function DecimalValue(t: Text): nat
    requires AllDigits(t)
  {
    if t == [] then 0 else 10 * DecimalValue(t[..|t| - 1]) + (t[|t| - 1] - 0x30)
  }

  lemma {:induction false} DecimalRoundTrip(n: nat)
    ensures DecimalValue(Decimal(n)) == n
  {
    if n < 10 {
      assert Decimal(n)[..0] == [];
    } else {
      DecimalRoundTrip(n / 10);
      assert Decimal(n)[..|Decimal(n)| - 1] == Decimal(n / 10);
    }
  }
}
