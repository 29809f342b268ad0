/** What the encoder writes is a text of the grammar, and the decoder reads it back. */
module JsonRoundTrip {
  import opened Wrappers
  import opened Text
  import opened Json
  import opened JsonCodec
  import opened JsonGrammar
  import opened JsonReads

  /** Every integer of the value has at most `limit` digits. */
  predicate IntsFit(v: Json, limit: nat) {
    match v
    case Int(n) => |Decimal(if n < 0 then -n else n)| <= limit
    case Arr(items) => forall i | 0 <= i < |items| :: IntsFit(items[i], limit)
    case Obj(fields) => forall k | k in fields :: IntsFit(fields[k], limit)
    case _ => true
  }

  // ---------------------------------------------------------------- the tree that the encoder spells

  function CanonicalChar(c: Code): Char {
    if c == QUOTE then Short(0) else if c == BACKSLASH then Short(1)
    else if c == 0x08 then Short(3) else if c == 0x0C then Short(4) else if c == 0x0A then Short(5)
    else if c == 0x0D then Short(6) else if c == 0x09 then Short(7)
    else if c < 0x20 then
      var zero := Digit(0, false);
      Unit(Quad(zero, zero, Digit(c / 16, false), Digit(c % 16, false)))
    else Plain(c)
  }

  function CanonicalChars(s: Text): seq<Char> {
    if s == [] then [] else [CanonicalChar(s[0])] + CanonicalChars(s[1..])
  }

  function CanonicalTree(v: Json): Tree
    decreases v
  {
    match v
    case Null => NullWord
    case Bool(b) => if b then TrueWord else FalseWord
    case Int(n) => if n < 0 then Number(true, Decimal(-n)) else Number(false, Decimal(n))
    case Str(s) => String(CanonicalChars(s))
    case Arr(items) => if items == [] then EmptyArray([]) else Array(CanonicalItems(v, items))
    case Obj(fields) =>
      if fields == map[] then EmptyObject([])
      else
        var keys := SortedKeys(fields.Keys);
        Object(CanonicalMembers(v, keys))
  }

  function CanonicalItems(ghost parent: Json, items: seq<Json>): Items
    requires items != [] && forall w | w in items :: w < parent
    decreases parent, |items|
  {
    assert items[0] in items && forall w | w in items[1..] :: w in items;
    var item := Item([], CanonicalTree(items[0]), []);
    if |items| == 1 then LastItem(item) else NextItem(item, CanonicalItems(parent, items[1..]))
  }

  function CanonicalMembers(parent: Json, keys: seq<Text>): Members
    requires parent.Obj? && keys != [] && forall k | k in keys :: k in parent.fields
    decreases parent, |keys|
  {
    assert keys[0] in keys && forall k | k in keys[1..] :: k in keys;
    var member := Member([], CanonicalChars(keys[0]), [], [], CanonicalTree(parent.fields[keys[0]]), []);
    if |keys| == 1 then LastMember(member) else NextMember(member, CanonicalMembers(parent, keys[1..]))
  }

  lemma CanonicalCharSpells(c: Code)
    ensures var ch := CanonicalChar(c); CharOk(ch) && CharText(ch) == EscapeChar(c) && CharCode(ch) == c
    ensures CanonicalChar(c).Unit? ==> QuadValue(CanonicalChar(c).quad) < 0x20
  {
  }

  lemma {:induction false} CanonicalCharsSpell(s: Text)
    ensures var cs := CanonicalChars(s);
            StringOk(cs) && StringText(cs) == EscapeAll(s) + [QUOTE] && StringValue(cs) == s
  {
    hide CharText, CharCode, EscapeChar, CanonicalChar, QuadValue;
    if s != [] {
      CanonicalCharSpells(s[0]);
      CanonicalCharsSpell(s[1..]);
      assert CanonicalChars(s)[1..] == CanonicalChars(s[1..]);
      assert s == [s[0]] + s[1..];
    }
  }

  /** The tree spells the value and is admitted when its integers fit. */
  predicate Spells(t: Tree, v: Json, limit: nat) {
    TreeOk(t) && TreeText(t) == EncodeValue(v) && Meaning(t) == v && (Admitted(t, limit) <==> IntsFit(v, limit))
  }

  lemma {:induction false} CanonicalTreeSpells(v: Json, limit: nat)
    ensures Spells(CanonicalTree(v), v, limit)
    decreases v
  {
    match v
    case Int(n) => CanonicalInt(n, limit);
    case Str(s) => CanonicalString(s, limit);
    case Arr(items) =>
      if items != [] {
        CanonicalItemsSpell(v, items, limit);
        CanonicalArray(v, items, limit);
      }
    case Obj(fields) =>
      if fields != map[] {
        CanonicalMembersSpell(v, SortedKeys(fields.Keys), limit);
        CanonicalObject(v, limit);
      }
    case _ =>
  }

  lemma CanonicalInt(n: int, limit: nat)
    ensures Spells(CanonicalTree(Int(n)), Int(n), limit)
  {
    hide Decimal, DecimalValue;
    DecimalRoundTrip(if n < 0 then -n else n);
  }

  lemma CanonicalString(s: Text, limit: nat)
    ensures Spells(CanonicalTree(Str(s)), Str(s), limit)
  {
    hide StringOk, StringText, StringValue, EscapeAll, CanonicalChars;
    CanonicalCharsSpell(s);
  }

  lemma CanonicalArray(v: Json, items: seq<Json>, limit: nat)
    requires v == Arr(items) && items != [] && ItemsSpell(v, items, limit)
    ensures Spells(CanonicalTree(v), v, limit)
  {
    hide CanonicalItems, ItemsOk, ItemsText, ItemsMeaning, ItemsAdmitted, EncodeItems;
    assert EncodeValue(v) == [0x5B] + (EncodeItems(v, items) + [0x5D]);
    assert IntsFit(v, limit) <==> forall w | w in items :: IntsFit(w, limit);
  }

  lemma CanonicalObject(v: Json, limit: nat)
    requires v.Obj? && v.fields != map[] && MembersSpell(v, SortedKeys(v.fields.Keys), limit)
    ensures Spells(CanonicalTree(v), v, limit)
  {
    hide CanonicalMembers, MembersOk, MembersText, Keys, Fields, ValuesAdmitted, EncodeMembers, SortedKeys;
    var keys := SortedKeys(v.fields.Keys);
    SortedKeysDistinct(v.fields.Keys);
    assert (map k | k in keys :: v.fields[k]) == v.fields;
    assert EncodeValue(v) == [0x7B] + (EncodeMembers(v, keys) + [0x7D]);
    assert IntsFit(v, limit) <==> forall k | k in keys :: IntsFit(v.fields[k], limit);
  }

  predicate ItemsSpell(parent: Json, items: seq<Json>, limit: nat)
    requires items != [] && forall w | w in items :: w < parent
  {
    var t := CanonicalItems(parent, items);
    && ItemsOk(t) && ItemsText(t) == EncodeItems(parent, items) + [0x5D] && ItemsMeaning(t) == items
    && (ItemsAdmitted(t, limit) <==> forall w | w in items :: IntsFit(w, limit))
  }

  predicate MembersSpell(parent: Json, keys: seq<Text>, limit: nat)
    requires parent.Obj? && keys != [] && forall k | k in keys :: k in parent.fields
  {
    var t := CanonicalMembers(parent, keys);
    MembersOk(t) && MembersText(t) == EncodeMembers(parent, keys) + [0x7D] && MembersMean(parent, keys, limit, t)
  }

  predicate MembersMean(parent: Json, keys: seq<Text>, limit: nat, t: Members)
    requires parent.Obj? && (forall k | k in keys :: k in parent.fields) && MembersOk(t)
  {
    && Keys(t) == keys && Fields(t) == (map k | k in keys :: parent.fields[k])
    && (ValuesAdmitted(t, limit) <==> forall k | k in keys :: IntsFit(parent.fields[k], limit))
  }

  lemma {:induction false} CanonicalItemsSpell(parent: Json, items: seq<Json>, limit: nat)
    requires items != [] && forall w | w in items :: w < parent
    ensures ItemsSpell(parent, items, limit)
    decreases parent, |items|
  {
    assert items[0] in items && forall w | w in items[1..] :: w in items;
    CanonicalTreeSpells(items[0], limit);
    if |items| > 1 { CanonicalItemsSpell(parent, items[1..], limit); }
    ItemsSpelled(parent, items, limit);
  }

  lemma {:induction false} ItemsSpelled(parent: Json, items: seq<Json>, limit: nat)
    requires items != [] && (forall w | w in items :: w < parent) && Spells(CanonicalTree(items[0]), items[0], limit)
    requires |items| > 1 ==> (forall w | w in items[1..] :: w in items) && ItemsSpell(parent, items[1..], limit)
    ensures ItemsSpell(parent, items, limit)
  {
    hide TreeText, EncodeValue, Meaning, Admitted, IntsFit, TreeOk, CanonicalTree;
    assert items == [items[0]] + items[1..];
    if |items| > 1 {
      assert EncodeItems(parent, items) + [0x5D]
          == EncodeValue(items[0]) + ([COMMA] + (EncodeItems(parent, items[1..]) + [0x5D]));
    }
  }

  lemma {:induction false} CanonicalMembersSpell(parent: Json, keys: seq<Text>, limit: nat)
    requires parent.Obj? && keys != [] && forall k | k in keys :: k in parent.fields
    ensures MembersSpell(parent, keys, limit)
    decreases parent, |keys|
  {
    assert keys[0] in keys && forall k | k in keys[1..] :: k in keys;
    CanonicalTreeSpells(parent.fields[keys[0]], limit);
    if |keys| > 1 { CanonicalMembersSpell(parent, keys[1..], limit); }
    MembersSpelled(parent, keys, limit);
  }

  lemma {:induction false} MembersSpelled(parent: Json, keys: seq<Text>, limit: nat)
    requires parent.Obj? && keys != [] && (forall k | k in keys :: k in parent.fields) && keys[0] in keys
    requires Spells(CanonicalTree(parent.fields[keys[0]]), parent.fields[keys[0]], limit)
    requires |keys| > 1 ==> (forall k | k in keys[1..] :: k in keys) && MembersSpell(parent, keys[1..], limit)
    ensures MembersSpell(parent, keys, limit)
  {
    hide TreeText, EncodeValue, Meaning, Admitted, IntsFit, TreeOk, CanonicalTree, CanonicalChars, EscapeAll;
    hide StringOk, StringText, StringValue, KeyText, MembersMean;
    var v := parent.fields[keys[0]];
    assert keys == [keys[0]] + keys[1..];
    CanonicalCharsSpell(keys[0]);
    var m := CanonicalMembers(parent, keys).member;
    var x: Text := if |keys| == 1 then [0x7D] else [COMMA] + (EncodeMembers(parent, keys[1..]) + [0x7D]);
    CanonicalMemberText(m, keys[0], v, x);
    OneMoreMember(parent, keys, limit, CanonicalMembers(parent, keys));
  }

  lemma {:induction false} OneMoreMember(parent: Json, keys: seq<Text>, limit: nat, t: Members)
    requires parent.Obj? && keys != [] && (forall k | k in keys :: k in parent.fields) && keys[0] in keys
    requires MembersOk(t)
    requires var v := parent.fields[keys[0]];
             && StringValue(t.member.key) == keys[0] && Meaning(t.member.value) == v
             && (Admitted(t.member.value, limit) <==> IntsFit(v, limit))
    requires |keys| == 1 ==> t.LastMember?
    requires |keys| > 1 ==>
               && t.NextMember? && (forall k | k in keys[1..] :: k in keys)
               && MembersMean(parent, keys[1..], limit, t.more)
    ensures MembersMean(parent, keys, limit, t)
  {
    hide Meaning, Admitted, IntsFit, StringValue;
    assert keys == [keys[0]] + keys[1..];
  }

  lemma CanonicalMemberText(m: Member, k: Text, v: Json, x: Text)
    requires KeyOk(m) && m.before == m.colon == m.gap == m.after == [] && StringText(m.key) == EscapeAll(k) + [QUOTE]
    requires TreeOk(m.value) && TreeText(m.value) == EncodeValue(v)
    ensures m.before + (KeyText(m) + (TreeText(m.value) + (m.after + x)))
         == EncodeString(k) + [COLON] + EncodeValue(v) + x
  {
    hide TreeText, EncodeValue, StringText, StringOk, EscapeAll, TreeOk;
  }

  /** In front of any delimiting text, the parser reads an encoded value back and stops right after
      it, or refuses it because of an integer with too many digits. */
  lemma ParseEncoded(v: Json, rest: Text, limit: nat)
    requires Delimited(rest)
    ensures ParseValue(EncodeValue(v) + rest, limit) == if IntsFit(v, limit) then Some((v, rest)) else None
  {
    hide ParseValue, EncodeValue, TreeText, Meaning, Admitted;
    CanonicalTreeSpells(v, limit);
    ReadTree(CanonicalTree(v), rest, limit);
  }
}
