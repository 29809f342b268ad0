/** What the canonical codec promises as a whole. */
module JsonTheorems {
  import opened Wrappers
  import opened Text
  import opened Json
  import opened JsonCodec
  import opened JsonGrammar
  import opened JsonReads
  import opened JsonRoundTrip
  import opened JsonSeparators
  import Utf8

  // ---------------------------------------------------------------- the digit limit

  lemma {:induction false} DecimalOfValue(d: Text)
    requires d != [] && AllDigits(d) && (d[0] == 0x30 ==> |d| == 1)
    ensures Decimal(DecimalValue(d)) == d
  {
    var n := |d| - 1;
    if n == 0 {
      assert d[..0] == [];
    } else {
      DecimalOfValue(d[..n]);
      assert d == d[..n] + [d[n]];
      assert d[..n][0] == d[0];
    }
  }

  /** An admitted tree means a value whose integers fit. */
  lemma {:induction false} AdmittedFits(t: Tree, limit: nat)
    requires TreeOk(t) && Admitted(t, limit)
    ensures IntsFit(Meaning(t), limit)
    decreases t
  {
    match t
    case Number(negative, digits) => DecimalOfValue(digits);
    case Array(items) => AdmittedItemsFit(items, limit);
    case Object(members) => AdmittedFieldsFit(members, limit);
    case _ =>
  }

  lemma {:induction false} AdmittedItemsFit(items: Items, limit: nat)
    requires ItemsOk(items) && ItemsAdmitted(items, limit)
    ensures forall v | v in ItemsMeaning(items) :: IntsFit(v, limit)
    decreases items
  {
    hide Meaning, Admitted, IntsFit;
    AdmittedFits(items.item.value, limit);
    if items.NextItem? { AdmittedItemsFit(items.more, limit); }
  }

  lemma {:induction false} AdmittedFieldsFit(members: Members, limit: nat)
    requires MembersOk(members) && ValuesAdmitted(members, limit)
    ensures forall k | k in Fields(members) :: IntsFit(Fields(members)[k], limit)
    decreases members
  {
    hide Meaning, Admitted, IntsFit, StringValue;
    AdmittedFits(members.member.value, limit);
    if members.NextMember? { AdmittedFieldsFit(members.more, limit); }
  }

  /** A limit that every integer of `v` meets. */
  function DigitBound(v: Json): nat
    decreases v
  {
    (if v.Int? then |Decimal(if v.n < 0 then -v.n else v.n)| else 0) + DigitBoundAll(v, Children(v))
  }

  function DigitBoundAll(ghost parent: Json, vs: seq<Json>): nat
    requires forall w | w in vs :: w < parent
    decreases parent, |vs|
  {
    if vs == [] then 0
    else
      assert vs[0] in vs && forall w | w in vs[1..] :: w in vs;
      DigitBound(vs[0]) + DigitBoundAll(parent, vs[1..])
  }

  lemma {:induction false} DigitBoundOfMember(parent: Json, vs: seq<Json>, w: Json)
    requires w in vs && forall x | x in vs :: x < parent
    ensures DigitBound(w) <= DigitBoundAll(parent, vs)
    decreases |vs|
  {
    hide DigitBound;
    assert vs[0] in vs && forall x | x in vs[1..] :: x in vs;
    if w != vs[0] { DigitBoundOfMember(parent, vs[1..], w); }
  }

  lemma {:induction false} DigitBoundFits(v: Json, limit: nat)
    requires DigitBound(v) <= limit
    ensures IntsFit(v, limit)
    decreases v
  {
    hide Children;
    forall w | w in Children(v) ensures IntsFit(w, limit) {
      DigitBoundOfMember(v, Children(v), w);
      DigitBoundFits(w, limit);
    }
    match v
    case Arr(items) =>
      forall i | 0 <= i < |items| ensures IntsFit(items[i], limit) {
        assert Child(v, Index(i)) == Some(items[i]);
        ChildrenAreSteps(v, items[i]);
      }
    case Obj(fields) =>
      forall k | k in fields ensures IntsFit(fields[k], limit) {
        assert Child(v, Key(k)) == Some(fields[k]);
        ChildrenAreSteps(v, fields[k]);
      }
    case _ =>
  }

  // ---------------------------------------------------------------- text

  lemma EncodedTextParses(v: Json, limit: nat)
    ensures ParseText(EncodeValue(v) + [NEWLINE], limit) == if IntsFit(v, limit) then Some(v) else None
  {
    hide ParseText, EncodeValue, IntsFit, TreeText, Meaning, Admitted, TreeOk;
    CanonicalTreeSpells(v, limit);
    ReadDocument([], CanonicalTree(v), [NEWLINE], limit);
    assert [] + (EncodeValue(v) + [NEWLINE]) == EncodeValue(v) + [NEWLINE];
  }

  lemma CanonicalTextParses(v: Json, limit: nat)
    ensures ParseText(CanonicalText(v), limit) == if IntsFit(v, limit) then Some(v) else None
  {
    hide ParseText, EncodeValue, IntsFit, TreeText, Meaning, Admitted, TreeOk, EscapeSeparators;
    CanonicalTreeSpells(v, limit);
    EscapeDocument([], CanonicalTree(v), [NEWLINE], limit);
    assert [] + (EncodeValue(v) + [NEWLINE]) == EncodeValue(v) + [NEWLINE];
  }

  lemma DecodedFits(text: Text, limit: nat)
    requires ParseText(text, limit).Some?
    ensures IntsFit(ParseText(text, limit).value, limit)
  {
    var before, t, after := SpellDocument(text, limit);
    AdmittedFits(t, limit);
  }

  /** The replacement of separators in what the encoder wrote never changes what a decoder makes
      of it, refusals included. */
  lemma EscapingEncodedText(v: Json, limit: nat)
    ensures ParseText(CanonicalText(v), limit) == ParseText(EncodeValue(v) + [NEWLINE], limit)
  {
    hide ParseText, CanonicalText, EncodeValue, IntsFit;
    EncodedTextParses(v, limit);
    CanonicalTextParses(v, limit);
  }

  // ---------------------------------------------------------------- one line

  /** No control character and, with them, no line break. */
  predicate OneLine(t: Text) {
    forall c | c in t :: c >= 0x20
  }

  lemma {:induction false} EscapedOneLine(s: Text)
    ensures OneLine(EscapeAll(s))
  {
    if s != [] { EscapedOneLine(s[1..]); }
  }

  lemma {:induction false} EncodedOneLine(v: Json)
    ensures OneLine(EncodeValue(v))
    decreases v
  {
    hide EscapeAll, EncodeItems, EncodeMembers, SortedKeys;
    match v
    case Str(s) => EscapedOneLine(s);
    case Arr(items) => ItemsOneLine(v, items);
    case Obj(fields) => MembersOneLine(v, SortedKeys(fields.Keys));
    case _ =>
  }

  lemma {:induction false} ItemsOneLine(parent: Json, items: seq<Json>)
    requires forall w | w in items :: w < parent
    ensures OneLine(EncodeItems(parent, items))
    decreases parent, |items|
  {
    hide EncodeValue;
    if items != [] {
      assert items[0] in items && forall w | w in items[1..] :: w in items;
      EncodedOneLine(items[0]);
      ItemsOneLine(parent, items[1..]);
    }
  }

  lemma {:induction false} MembersOneLine(parent: Json, keys: seq<Text>)
    requires parent.Obj? && forall k | k in keys :: k in parent.fields
    ensures OneLine(EncodeMembers(parent, keys))
    decreases parent, |keys|
  {
    hide EncodeValue, EscapeAll;
    if keys != [] {
      assert keys[0] in keys && forall k | k in keys[1..] :: k in keys;
      EscapedOneLine(keys[0]);
      EncodedOneLine(parent.fields[keys[0]]);
      MembersOneLine(parent, keys[1..]);
    }
  }

  lemma {:induction false} EscapingRemovesSeparators(t: Text)
    ensures forall c | c in EscapeSeparators(t) :: !IsSeparator(c) && (c >= 0x20 || c in t)
  {
    if t != [] { EscapingRemovesSeparators(t[1..]); }
  }

  /** A canonical document is one line: its only line break of any kind is its last character. */
  lemma CanonicalTextIsOneLine(v: Json)
    ensures var t := CanonicalText(v);
            && t != [] && t[|t| - 1] == NEWLINE
            && OneLine(t[..|t| - 1]) && forall c | c in t :: !IsSeparator(c)
  {
    hide EncodeValue;
    var body := EncodeValue(v);
    EncodedOneLine(v);
    EscapeAppend(body, [NEWLINE]);
    EscapeClean([NEWLINE]);
    EscapingRemovesSeparators(body);
    assert CanonicalText(v) == EscapeSeparators(body) + [NEWLINE];
  }

  // ---------------------------------------------------------------- bytes

  /** Decoding the canonical bytes of a value gives the value back, exactly when each of
      its integers has at most 100 digits; otherwise the decoder refuses the bytes. */
  lemma CanonicalRoundTrip(v: Json, maximum: int)
    requires CanonicalBytes(v, maximum).Some?
    ensures DecodeDocument(CanonicalBytes(v, maximum).value, maximum)
         == if IntsFit(v, 100) then Some(v) else None
  {
    hide ParseText, CanonicalText, DepthAndUnicode, IntsFit, Utf8.Encode, Utf8.Decode;
    var body := CanonicalBytes(v, maximum).value;
    Utf8.DecodeEncode(CanonicalText(v));
    assert body != [] by { NonEmptyBody(v); }
    CanonicalTextParses(v, MAX_INT_DIGITS);
  }

  lemma NonEmptyBody(v: Json)
    requires Utf8.Encode(CanonicalText(v)).Some?
    ensures Utf8.Encode(CanonicalText(v)).value != []
  {
  }

  /** Equal canonical bytes mean equal values, however long the integers are. */
  lemma CanonicalBytesInjective(v: Json, w: Json, maximum: int)
    requires CanonicalBytes(v, maximum).Some? && CanonicalBytes(w, maximum) == CanonicalBytes(v, maximum)
    ensures v == w
  {
    hide ParseText, CanonicalText, DepthAndUnicode, IntsFit, Utf8.Encode, Utf8.Decode;
    Utf8.DecodeEncode(CanonicalText(v));
    Utf8.DecodeEncode(CanonicalText(w));
    var limit := DigitBound(v) + DigitBound(w);
    DigitBoundFits(v, limit);
    DigitBoundFits(w, limit);
    CanonicalTextParses(v, limit);
    CanonicalTextParses(w, limit);
  }

  /** Which bytes the strict decoder accepts, and as what: the UTF-8 encodings, within the size
      bound, of texts that spell an admitted tree whose meaning passes the depth check. */
  lemma DecodesExactly(body: Utf8.Bytes, maximum: int, v: Json)
    ensures DecodeDocument(body, maximum) == Some(v) <==>
            && 0 < |body| <= maximum && DepthAndUnicode(v, 0)
            && exists before, t, after ::
                 && Blank(before) && TreeOk(t) && Blank(after)
                 && Utf8.Encode(before + (TreeText(t) + after)) == Some(body)
                 && Admitted(t, 100) && Meaning(t) == v
  {
    hide ParseText, TreeText, Meaning, Admitted, TreeOk, DepthAndUnicode, Utf8.Encode, Utf8.Decode;
    if DecodeDocument(body, maximum) == Some(v) {
      var text := Utf8.Decode(body).value;
      Utf8.EncodeDecode(body);
      var before, t, after := SpellDocument(text, MAX_INT_DIGITS);
    }
    forall before, t, after |
      && Blank(before) && TreeOk(t) && Blank(after) && Utf8.Encode(before + (TreeText(t) + after)) == Some(body)
      && Admitted(t, MAX_INT_DIGITS) && Meaning(t) == v && 0 < |body| <= maximum && DepthAndUnicode(v, 0)
      ensures DecodeDocument(body, maximum) == Some(v)
    {
      Utf8.DecodeEncode(before + (TreeText(t) + after));
      ReadDocument(before, t, after, MAX_INT_DIGITS);
    }
  }

  /** Whatever spelling an accepted document uses, its canonical form decodes to the same value. */
  lemma DecodedValuesRoundTrip(body: Utf8.Bytes, maximum: int, wider: int)
    requires DecodeDocument(body, maximum).Some?
    requires CanonicalBytes(DecodeDocument(body, maximum).value, wider).Some?
    ensures DecodeDocument(CanonicalBytes(DecodeDocument(body, maximum).value, wider).value, wider)
         == DecodeDocument(body, maximum)
  {
    var v := DecodeDocument(body, maximum).value;
    DecodedFits(Utf8.Decode(body).value, MAX_INT_DIGITS);
    CanonicalRoundTrip(v, wider);
  }
}
