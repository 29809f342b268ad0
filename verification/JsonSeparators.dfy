/** Replacing raw line separators by their escapes turns a text of the grammar into another text of
    the grammar with the same meaning. */
module JsonSeparators {
  import opened Wrappers
  import opened Text
  import opened Json
  import opened JsonCodec
  import opened JsonGrammar
  import opened JsonReads

  predicate IsSeparator(c: Code) {
    c == 0x2028 || c == 0x2029
  }

  lemma {:induction false} EscapeAppend(a: Text, b: Text)
    ensures EscapeSeparators(a + b) == EscapeSeparators(a) + EscapeSeparators(b)
  {
    if a == [] {
      assert a + b == b;
    } else {
      assert (a + b)[1..] == a[1..] + b;
      EscapeAppend(a[1..], b);
    }
  }

  lemma {:induction false} EscapeClean(t: Text)
    requires forall c | c in t :: !IsSeparator(c)
    ensures EscapeSeparators(t) == t
  {
    if t != [] {
      assert t[0] in t && forall c | c in t[1..] :: c in t;
      EscapeClean(t[1..]);
      assert t == [t[0]] + t[1..];
    }
  }

  lemma EscapeBlank(t: Text)
    requires Blank(t)
    ensures EscapeSeparators(t) == t
  {
    EscapeClean(t);
  }

  // ---------------------------------------------------------------- trees

  /** U+2028 and U+2029 as UTF-16 units. */
  function SeparatorUnit(c: Code): Quad
    requires IsSeparator(c)
  {
    Quad(Digit(2, false), Digit(0, false), Digit(2, false), Digit(if c == 0x2028 then 8 else 9, false))
  }

  function EscapedChar(ch: Char): Char {
    if ch.Plain? && IsSeparator(ch.code) then Unit(SeparatorUnit(ch.code)) else ch
  }

  function EscapedChars(cs: seq<Char>): (r: seq<Char>)
    ensures |r| == |cs| && forall i | 0 <= i < |cs| :: r[i] == EscapedChar(cs[i])
  {
    seq(|cs|, i requires 0 <= i < |cs| => EscapedChar(cs[i]))
  }

  function EscapedTree(t: Tree): Tree {
    match t
    case String(chars) => String(EscapedChars(chars))
    case Array(items) => Array(EscapedItems(items))
    case Object(members) => Object(EscapedMembers(members))
    case _ => t
  }

  function EscapedItems(items: Items): Items {
    match items
    case LastItem(i) => LastItem(i.(value := EscapedTree(i.value)))
    case NextItem(i, more) => NextItem(i.(value := EscapedTree(i.value)), EscapedItems(more))
  }

  function EscapedMembers(members: Members): Members {
    match members
    case LastMember(m) => LastMember(m.(key := EscapedChars(m.key), value := EscapedTree(m.value)))
    case NextMember(m, more) =>
      NextMember(m.(key := EscapedChars(m.key), value := EscapedTree(m.value)), EscapedMembers(more))
  }

  lemma EscapeChar1(ch: Char)
    requires CharOk(ch)
    ensures var e := EscapedChar(ch);
            CharOk(e) && CharText(e) == EscapeSeparators(CharText(ch)) && CharCode(e) == CharCode(ch)
  {
    if ch.Plain? && IsSeparator(ch.code) {
      assert CharText(ch)[1..] == [];
    } else {
      EscapeClean(CharText(ch));
    }
  }

  lemma EscapedJoin(a: Char, b: Char)
    requires CharOk(a) && CharOk(b)
    ensures Joins(EscapedChar(a), EscapedChar(b)) <==> Joins(a, b)
  {
  }

  lemma {:induction false} EscapeString(cs: seq<Char>)
    requires StringOk(cs)
    ensures var e := EscapedChars(cs);
            StringOk(e) && StringText(e) == EscapeSeparators(StringText(cs)) && StringValue(e) == StringValue(cs)
  {
    hide CharText, CharCode, CharOk, Joins, EscapedChar, EscapeSeparators;
    if cs == [] {
      EscapeClean([QUOTE]);
    } else {
      EscapeChar1(cs[0]);
      EscapeString(cs[1..]);
      EscapeAppend(CharText(cs[0]), StringText(cs[1..]));
      assert EscapedChars(cs)[1..] == EscapedChars(cs[1..]);
      if |cs| > 1 { EscapedJoin(cs[0], cs[1]); }
    }
  }

  /** The escaped tree spells the escaped text and means the same. */
  predicate SameTree(t: Tree, e: Tree, limit: nat)
    requires TreeOk(t)
  {
    && TreeOk(e) && TreeText(e) == EscapeSeparators(TreeText(t)) && Meaning(e) == Meaning(t)
    && (Admitted(e, limit) <==> Admitted(t, limit))
  }

  predicate SameItems(t: Items, e: Items, limit: nat)
    requires ItemsOk(t)
  {
    && ItemsOk(e) && ItemsText(e) == EscapeSeparators(ItemsText(t)) && ItemsMeaning(e) == ItemsMeaning(t)
    && (ItemsAdmitted(e, limit) <==> ItemsAdmitted(t, limit))
  }

  predicate SameMembers(t: Members, e: Members, limit: nat)
    requires MembersOk(t)
  {
    && MembersOk(e) && MembersText(e) == EscapeSeparators(MembersText(t))
    && Fields(e) == Fields(t) && Keys(e) == Keys(t) && (ValuesAdmitted(e, limit) <==> ValuesAdmitted(t, limit))
  }

  lemma {:induction false} EscapeTree(t: Tree, limit: nat)
    requires TreeOk(t)
    ensures SameTree(t, EscapedTree(t), limit)
    decreases t
  {
    match t
    case String(chars) =>
      EscapeString(chars);
      EscapeClean([QUOTE]);
      EscapeAppend([QUOTE], StringText(chars));
    case Array(items) =>
      EscapeItems(items, limit);
      EscapeClean([0x5B]);
      EscapeAppend([0x5B], ItemsText(items));
    case Object(members) =>
      EscapeMembers(members, limit);
      EscapeClean([0x7B]);
      EscapeAppend([0x7B], MembersText(members));
    case _ => EscapeClean(TreeText(t));
  }

  lemma EscapeAround(before: Text, middle: Text, after: Text, rest: Text)
    requires Blank(before) && Blank(after)
    ensures EscapeSeparators(before + (middle + (after + rest)))
         == before + (EscapeSeparators(middle) + (after + EscapeSeparators(rest)))
  {
    hide EscapeSeparators;
    EscapeBlank(before);
    EscapeBlank(after);
    EscapeAppend(before, middle + (after + rest));
    EscapeAppend(middle, after + rest);
    EscapeAppend(after, rest);
  }

  lemma {:induction false} EscapeItems(items: Items, limit: nat)
    requires ItemsOk(items)
    ensures SameItems(items, EscapedItems(items), limit)
    decreases items
  {
    hide TreeText, Meaning, Admitted, TreeOk, EscapedTree, EscapeSeparators;
    var i := items.item;
    EscapeTree(i.value, limit);
    if items.LastItem? {
      EscapeClean([0x5D]);
      EscapeAround(i.before, TreeText(i.value), i.after, [0x5D]);
    } else {
      EscapeItems(items.more, limit);
      EscapeClean([COMMA]);
      EscapeAppend([COMMA], ItemsText(items.more));
      EscapeAround(i.before, TreeText(i.value), i.after, [COMMA] + ItemsText(items.more));
    }
  }

  lemma EscapeKey(m: Member)
    requires KeyOk(m)
    ensures var e := m.(key := EscapedChars(m.key), value := EscapedTree(m.value));
            && KeyOk(e) && KeyText(e) == EscapeSeparators(KeyText(m)) && StringValue(e.key) == StringValue(m.key)
  {
    hide StringOk, StringText, StringValue, EscapedChars, EscapeSeparators, EscapedTree;
    EscapeString(m.key);
    EscapeClean([QUOTE]);
    EscapeClean([COLON]);
    EscapeBlank(m.colon);
    EscapeBlank(m.gap);
    EscapeAppend([QUOTE], StringText(m.key));
    EscapeAppend([QUOTE] + StringText(m.key), m.colon);
    EscapeAppend([QUOTE] + StringText(m.key) + m.colon, [COLON]);
    EscapeAppend([QUOTE] + StringText(m.key) + m.colon + [COLON], m.gap);
  }

  lemma {:induction false} EscapeMembers(members: Members, limit: nat)
    requires MembersOk(members)
    ensures SameMembers(members, EscapedMembers(members), limit)
    decreases members
  {
    hide TreeText, Meaning, Admitted, TreeOk, EscapedTree, EscapeSeparators, KeyText, KeyOk, EscapedChars, StringValue;
    var m := members.member;
    EscapeTree(m.value, limit);
    EscapeKey(m);
    var x := if members.LastMember? then [0x7D] else [COMMA] + MembersText(members.more);
    EscapeMiddle(m, x);
    if members.LastMember? {
      EscapeClean([0x7D]);
    } else {
      EscapeMembers(members.more, limit);
      EscapeClean([COMMA]);
      EscapeAppend([COMMA], MembersText(members.more));
    }
  }

  lemma EscapeMiddle(m: Member, x: Text)
    requires KeyOk(m) && TreeOk(m.value)
    ensures EscapeSeparators(m.before + (KeyText(m) + (TreeText(m.value) + (m.after + x))))
         == m.before + (EscapeSeparators(KeyText(m))
            + (EscapeSeparators(TreeText(m.value)) + (m.after + EscapeSeparators(x))))
  {
    hide EscapeSeparators, TreeText, KeyText, TreeOk;
    var middle := KeyText(m) + TreeText(m.value);
    EscapeAround(m.before, middle, m.after, x);
    EscapeAppend(KeyText(m), TreeText(m.value));
    assert m.before + (KeyText(m) + (TreeText(m.value) + (m.after + x))) == m.before + (middle + (m.after + x));
  }

  // ---------------------------------------------------------------- documents

  lemma EscapeDocument(before: Text, t: Tree, after: Text, limit: nat)
    requires Blank(before) && TreeOk(t) && Blank(after)
    ensures ParseText(EscapeSeparators(before + (TreeText(t) + after)), limit)
         == if Admitted(t, limit) then Some(Meaning(t)) else None
  {
    hide ParseText, EscapeSeparators, TreeText, Meaning, Admitted, TreeOk, EscapedTree;
    EscapeTree(t, limit);
    EscapeBlank(before);
    EscapeBlank(after);
    EscapeAppend(before, TreeText(t) + after);
    EscapeAppend(TreeText(t), after);
    ReadDocument(before, EscapedTree(t), after, limit);
  }

  /** Every text that decodes still decodes to the same value after the replacement. */
  lemma EscapingKeepsMeaning(text: Text, limit: nat)
    requires ParseText(text, limit).Some?
    ensures ParseText(EscapeSeparators(text), limit) == ParseText(text, limit)
  {
    hide ParseText, EscapeSeparators, TreeText, Meaning, Admitted, TreeOk;
    var before, t, after := SpellDocument(text, limit);
    EscapeDocument(before, t, after, limit);
  }
}
