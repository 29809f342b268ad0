/** The decoder reads exactly the texts of the grammar, and reads them as they are meant. */
module JsonReads {
  import opened Wrappers
  import opened Text
  import opened Json
  import opened JsonCodec
  import opened JsonGrammar

  // ---------------------------------------------------------------- blanks

  lemma {:induction false} SkipBlank(b: Text, u: Text)
    requires Blank(b) && (u == [] || !IsSpace(u[0]))
    ensures SkipSpace(b + u) == u
  {
    if b == [] {
      assert b + u == u;
    } else {
      assert b[0] in b && (forall c | c in b[1..] :: c in b) && (b + u)[1..] == b[1..] + u;
      SkipBlank(b[1..], u);
    }
  }

  lemma {:induction false} SpaceSplit(t: Text) returns (b: Text)
    ensures Blank(b) && t == b + SkipSpace(t)
  {
    b := [];
    if t != [] && IsSpace(t[0]) {
      var more := SpaceSplit(t[1..]);
      b := [t[0]] + more;
      assert t == [t[0]] + t[1..];
    }
  }

  // ---------------------------------------------------------------- strings

  lemma ReadQuad(q: Quad, more: Text)
    requires QuadOk(q)
    ensures UnicodeEscape(QuadText(q) + more) == Some(QuadValue(q))
  {
    var t := QuadText(q) + more;
    var u := t[2..];
    assert u[0] == DigitCode(q.a) && u[1] == DigitCode(q.b) && u[2] == DigitCode(q.c) && u[3] == DigitCode(q.d);
    ReadDigit(q.a); ReadDigit(q.b); ReadDigit(q.c); ReadDigit(q.d);
  }

  lemma ReadDigit(x: Digit)
    requires x.value < 16
    ensures HexValue(DigitCode(x)) == x.value
  {
  }

  lemma ReadChar(ch: Char, more: Text)
    requires CharOk(ch)
    requires var next := UnicodeEscape(more);
             ch.Unit? && IsHigh(QuadValue(ch.quad)) ==> !(next.Some? && IsLow(next.value))
    ensures var t := CharText(ch) + more;
            t[0] != QUOTE && ParseChar(t) == Some((CharCode(ch), |CharText(ch)|)) && t[|CharText(ch)|..] == more
  {
    hide QuadValue, Hex4;
    var t := CharText(ch) + more;
    match ch
    case Plain(_) =>
    case Short(_) =>
    case Unit(q) =>
      ReadQuad(q, more);
      assert t[6..] == more;
    case Pair(h, l) =>
      ReadQuad(h, QuadText(l) + more);
      ReadQuad(l, more);
      assert t == QuadText(h) + (QuadText(l) + more);
      assert t[6..] == QuadText(l) + more;
  }

  /** Only a unit of its own can be read as a low surrogate. */
  lemma FirstUnit(ch: Char, more: Text)
    requires CharOk(ch)
    ensures var next := UnicodeEscape(CharText(ch) + more);
            next.Some? && IsLow(next.value) ==> ch.Unit? && QuadValue(ch.quad) == next.value
  {
    hide QuadValue, Hex4;
    match ch
    case Unit(q) => ReadQuad(q, more);
    case Pair(h, l) =>
      ReadQuad(h, QuadText(l) + more);
      assert CharText(ch) + more == QuadText(h) + (QuadText(l) + more);
    case _ =>
  }

  lemma {:induction false} FirstUnitOf(cs: seq<Char>, rest: Text)
    requires StringOk(cs)
    ensures var next := UnicodeEscape(StringText(cs) + rest);
            next.Some? && IsLow(next.value) ==> cs != [] && cs[0].Unit? && QuadValue(cs[0].quad) == next.value
  {
    hide CharText, Hex4;
    if cs != [] {
      var more := StringText(cs[1..]) + rest;
      assert StringText(cs) + rest == CharText(cs[0]) + more;
      FirstUnit(cs[0], more);
    }
  }

  lemma {:induction false} ReadString(cs: seq<Char>, rest: Text)
    requires StringOk(cs)
    ensures ParseString(StringText(cs) + rest) == Some((StringValue(cs), rest))
  {
    hide ParseChar, CharText, CharCode, UnicodeEscape;
    var t := StringText(cs) + rest;
    if cs == [] {
      assert t[0] == QUOTE && t[1..] == rest;
    } else {
      var more := StringText(cs[1..]) + rest;
      assert t == CharText(cs[0]) + more;
      FirstUnitOf(cs[1..], rest);
      ReadChar(cs[0], more);
      ReadString(cs[1..], rest);
    }
  }

  lemma SpellDigit(c: Code) returns (x: Digit)
    requires HexValue(c) >= 0
    ensures x.value < 16 && DigitCode(x) == c && x.value == HexValue(c)
  {
    x := Digit(HexValue(c), c <= 0x46);
  }

  lemma SpellQuad(t: Text) returns (q: Quad)
    requires UnicodeEscape(t).Some?
    ensures QuadOk(q) && QuadValue(q) == UnicodeEscape(t).value && |t| >= 6 && t[..6] == QuadText(q)
  {
    var u := t[2..];
    assert u[0] == t[2] && u[1] == t[3] && u[2] == t[4] && u[3] == t[5];
    var a := SpellDigit(t[2]);
    var b := SpellDigit(t[3]);
    var c := SpellDigit(t[4]);
    var d := SpellDigit(t[5]);
    q := Quad(a, b, c, d);
  }

  lemma SpellChar(t: Text) returns (ch: Char)
    requires t != [] && t[0] != QUOTE && ParseChar(t).Some?
    ensures CharOk(ch) && CharCode(ch) == ParseChar(t).value.0
    ensures var n := ParseChar(t).value.1; |CharText(ch)| == n && t[..n] == CharText(ch)
    ensures var next := UnicodeEscape(t[ParseChar(t).value.1..]);
            ch.Unit? && IsHigh(QuadValue(ch.quad)) ==> !(next.Some? && IsLow(next.value))
  {
    hide Hex4;
    if t[0] != BACKSLASH {
      ch := Plain(t[0]);
    } else if t[1] != 0x75 {
      ch := Short(if t[1] == 0x22 then 0 else if t[1] == 0x5C then 1 else if t[1] == 0x2F then 2
                  else if t[1] == 0x62 then 3 else if t[1] == 0x66 then 4 else if t[1] == 0x6E then 5
                  else if t[1] == 0x72 then 6 else 7);
    } else {
      var h := SpellQuad(t);
      if ParseChar(t).value.1 == 12 {
        var l := SpellQuad(t[6..]);
        ch := Pair(h, l);
        assert t[..12] == t[..6] + t[6..][..6];
      } else {
        ch := Unit(h);
      }
    }
  }

  lemma {:induction false} SpellString(t: Text) returns (cs: seq<Char>)
    requires ParseString(t).Some?
    ensures StringOk(cs) && StringValue(cs) == ParseString(t).value.0
    ensures t == StringText(cs) + ParseString(t).value.1
    decreases |t|
  {
    hide ParseChar, CharText, CharCode, UnicodeEscape;
    if t[0] == QUOTE {
      cs := [];
      assert t == [QUOTE] + t[1..];
    } else {
      var n := ParseChar(t).value.1;
      var ch := SpellChar(t);
      var more := SpellString(t[n..]);
      cs := [ch] + more;
      var rest := ParseString(t).value.1;
      if more != [] && Joins(ch, more[0]) {
        UnitAhead(more, rest);
      }
      assert cs[1..] == more;
      assert t == t[..n] + t[n..];
    }
  }

  lemma UnitAhead(cs: seq<Char>, rest: Text)
    requires StringOk(cs) && cs != [] && cs[0].Unit?
    ensures UnicodeEscape(StringText(cs) + rest) == Some(QuadValue(cs[0].quad))
  {
    assert StringText(cs) + rest == QuadText(cs[0].quad) + (StringText(cs[1..]) + rest);
    ReadQuad(cs[0].quad, StringText(cs[1..]) + rest);
  }

  // ---------------------------------------------------------------- numbers

  /** The text after a value cannot be taken for a part of a number. */
  predicate Delimited(t: Text) {
    t == [] || !(IsDigit(t[0]) || t[0] == 0x2E || t[0] == 0x65 || t[0] == 0x45)
  }

  lemma {:induction false} RunOfDigits(d: Text, rest: Text)
    requires AllDigits(d) && Delimited(rest)
    ensures DigitRun(d + rest) == |d|
  {
    if d != [] {
      assert (d + rest)[1..] == d[1..] + rest;
      RunOfDigits(d[1..], rest);
    } else {
      assert d + rest == rest;
    }
  }

  lemma ReadDigits(d: Text, negative: bool, rest: Text, limit: nat)
    requires Delimited(rest) && TreeOk(Number(negative, d))
    ensures ParseDigits(d + rest, negative, limit)
         == if Admitted(Number(negative, d), limit) then Some((Meaning(Number(negative, d)), rest)) else None
  {
    RunOfDigits(d, rest);
    assert (d + rest)[0] == d[0];
    assert (d + rest)[..|d|] == d && (d + rest)[|d|..] == rest;
  }

  lemma ReadNumber(t: Tree, rest: Text, limit: nat)
    requires t.Number? && TreeOk(t) && Delimited(rest)
    ensures ParseValue(TreeText(t) + rest, limit) == if Admitted(t, limit) then Some((Meaning(t), rest)) else None
  {
    hide ParseDigits, DecimalValue, AllDigits, DigitRun;
    var u := TreeText(t) + rest;
    assert IsDigit(t.digits[0]) by { FirstDigit(t); }
    ReadDigits(t.digits, t.negative, rest, limit);
    if t.negative {
      assert u[1..] == t.digits + rest;
    }
    assert !HasPrefix(u, NULL_TEXT) && !HasPrefix(u, TRUE_TEXT) && !HasPrefix(u, FALSE_TEXT) by {
      assert u[0] != 0x6E && u[0] != 0x74 && u[0] != 0x66;
    }
  }

  lemma FirstDigit(t: Tree)
    requires t.Number? && TreeOk(t)
    ensures IsDigit(t.digits[0])
  {
  }

  lemma SpellDigits(d: Text, negative: bool, limit: nat) returns (n: nat)
    requires ParseDigits(d, negative, limit).Some?
    ensures n <= |d| && var t := Number(negative, d[..n]);
            TreeOk(t) && Admitted(t, limit) && ParseDigits(d, negative, limit) == Some((Meaning(t), d[n..]))
  {
    hide DecimalValue;
    n := if d[0] == 0x30 then 1 else DigitRun(d);
    assert forall i | 0 <= i < n :: d[..n][i] == d[..DigitRun(d)][i];
  }

  lemma SpellNumber(u: Text, limit: nat) returns (t: Tree)
    requires u != [] && ParseNumber(u, limit).Some?
    ensures t.Number? && TreeOk(t) && Admitted(t, limit) && Meaning(t) == ParseNumber(u, limit).value.0
    ensures u == TreeText(t) + ParseNumber(u, limit).value.1
  {
    hide ParseDigits, DecimalValue, Admitted, Meaning, TreeOk;
    var negative := u[0] == MINUS;
    var d := if negative then u[1..] else u;
    var n := SpellDigits(d, negative, limit);
    t := Number(negative, d[..n]);
    assert d == d[..n] + d[n..];
    assert negative ==> u == [MINUS] + d;
  }

  // ---------------------------------------------------------------- reading values

  lemma FirstOfTree(t: Tree)
    requires TreeOk(t)
    ensures var c := TreeText(t)[0]; !IsSpace(c) && c != 0x5D && c != 0x7D
  {
  }

  /** After a value come blanks and then a comma, a bracket or a brace. */
  lemma AfterValue(blank: Text, c: Code, w: Text)
    requires Blank(blank) && (c == COMMA || c == 0x5D || c == 0x7D)
    ensures Delimited(blank + ([c] + w)) && SkipSpace(blank + ([c] + w)) == [c] + w
  {
    SkipBlank(blank, [c] + w);
    if blank != [] {
      assert blank[0] in blank;
    }
  }

  lemma {:induction false} ReadTree(t: Tree, rest: Text, limit: nat)
    requires TreeOk(t) && Delimited(rest)
    ensures ParseValue(TreeText(t) + rest, limit) == if Admitted(t, limit) then Some((Meaning(t), rest)) else None
    decreases t
  {
    match t
    case Number(_, _) => ReadNumber(t, rest, limit);
    case String(chars) => ReadQuoted(chars, rest, limit);
    case Array(items) =>
      ReadItems(items, rest, limit);
      ReadArray(items, rest, limit);
    case Object(members) =>
      ReadMembers(members, rest, limit);
      ReadObject(members, rest, limit);
    case _ => ReadPlain(t, rest, limit);
  }

  lemma ReadQuoted(chars: seq<Char>, rest: Text, limit: nat)
    requires StringOk(chars)
    ensures ParseValue(TreeText(String(chars)) + rest, limit) == Some((Str(StringValue(chars)), rest))
  {
    hide StringText, StringValue, ParseString;
    var u := TreeText(String(chars)) + rest;
    assert u[0] == QUOTE && u[1..] == StringText(chars) + rest;
    ReadString(chars, rest);
  }

  /** Words and empty containers. */
  lemma ReadPlain(t: Tree, rest: Text, limit: nat)
    requires TreeOk(t) && (t.NullWord? || t.TrueWord? || t.FalseWord? || t.EmptyArray? || t.EmptyObject?)
    ensures ParseValue(TreeText(t) + rest, limit) == Some((Meaning(t), rest))
  {
    var u := TreeText(t) + rest;
    if t.EmptyArray? {
      assert u[1..] == t.space + ([0x5D] + rest);
      AfterValue(t.space, 0x5D, rest);
    } else if t.EmptyObject? {
      assert u[1..] == t.space + ([0x7D] + rest);
      AfterValue(t.space, 0x7D, rest);
    } else if t.NullWord? {
      assert u[..4] == NULL_TEXT && u[4..] == rest;
    } else if t.TrueWord? {
      assert u[..4] == TRUE_TEXT && u[4..] == rest;
    } else {
      assert u[..5] == FALSE_TEXT && u[5..] == rest;
    }
  }

  /** What the parser makes of items once it knows the first value. */
  lemma ItemRead(u: Text, v: Json, after: Text, c: Code, w: Text, limit: nat)
    requires Blank(after) && (c == COMMA || c == 0x5D)
    requires ParseValue(u, limit) == Some((v, after + ([c] + w)))
    ensures c == 0x5D ==> ParseItems(u, limit) == Some(([v], w))
    ensures c == COMMA ==>
              var more := ParseItems(SkipSpace(w), limit);
              ParseItems(u, limit) == if more.None? then None else Some(([v] + more.value.0, more.value.1))
  {
    AfterValue(after, c, w);
    assert ([c] + w)[1..] == w;
  }

  lemma ItemUnread(u: Text, limit: nat)
    requires ParseValue(u, limit).None?
    ensures ParseItems(u, limit).None?
  {
  }

  lemma {:induction false} ReadItems(items: Items, rest: Text, limit: nat)
    requires ItemsOk(items)
    ensures ParseItems(SkipSpace(ItemsText(items) + rest), limit)
         == if ItemsAdmitted(items, limit) then Some((ItemsMeaning(items), rest)) else None
    decreases items
  {
    hide ParseValue, ParseItems, SkipSpace, TreeText, Meaning, Admitted;
    var i := items.item;
    var c: Code := if items.LastItem? then 0x5D else COMMA;
    var w := if items.LastItem? then rest else ItemsText(items.more) + rest;
    var tail := i.after + ([c] + w);
    var u := TreeText(i.value) + tail;
    assert ItemsText(items) + rest == i.before + u;
    FirstOfTree(i.value);
    assert u[0] == TreeText(i.value)[0];
    SkipBlank(i.before, u);
    AfterValue(i.after, c, w);
    ReadTree(i.value, tail, limit);
    if Admitted(i.value, limit) {
      ItemRead(u, Meaning(i.value), i.after, c, w, limit);
    } else {
      ItemUnread(u, limit);
    }
    if items.NextItem? {
      ReadItems(items.more, rest, limit);
    }
  }

  lemma ReadArray(items: Items, rest: Text, limit: nat)
    requires ItemsOk(items)
    ensures ParseValue(TreeText(Array(items)) + rest, limit) ==
            match ParseItems(SkipSpace(ItemsText(items) + rest), limit)
            case None => None
            case Some((vs, r)) => Some((Arr(vs), r))
  {
    var u := TreeText(Array(items)) + rest;
    assert u[0] == 0x5B && u[1..] == ItemsText(items) + rest;
    ItemsBegin(items, rest);
  }

  lemma ItemsBegin(items: Items, rest: Text)
    requires ItemsOk(items)
    ensures var u := SkipSpace(ItemsText(items) + rest); u != [] && u[0] != 0x5D
  {
    hide TreeText, SkipSpace;
    var i := items.item;
    FirstOfTree(i.value);
    var tail := i.after + (if items.LastItem? then [0x5D] + rest else [COMMA] + (ItemsText(items.more) + rest));
    var u := TreeText(i.value) + tail;
    assert ItemsText(items) + rest == i.before + u;
    assert u[0] == TreeText(i.value)[0];
    SkipBlank(i.before, u);
  }

  /** The members as the parser collects them. */
  function PairsOf(members: Members): (ps: seq<(Text, Json)>)
    requires MembersOk(members)
    ensures |ps| == |Keys(members)| && forall i | 0 <= i < |ps| :: ps[i].0 == Keys(members)[i]
  {
    match members
    case LastMember(m) => [(StringValue(m.key), Meaning(m.value))]
    case NextMember(m, more) => [(StringValue(m.key), Meaning(m.value))] + PairsOf(more)
  }

  lemma {:induction false} FieldsKeys(members: Members, k: Text)
    requires MembersOk(members)
    ensures k in Fields(members) <==> Mentions(PairsOf(members), k)
    decreases members
  {
    hide StringValue, Meaning;
    var ps := PairsOf(members);
    assert ps[0].0 == k ==> Mentions(ps, k);
    if members.NextMember? {
      var more := PairsOf(members.more);
      assert ps == [ps[0]] + more;
      FieldsKeys(members.more, k);
      if Mentions(more, k) {
        var i :| 0 <= i < |more| && more[i].0 == k;
        assert ps[i + 1].0 == k;
      }
      if Mentions(ps, k) && ps[0].0 != k {
        var i :| 0 <= i < |ps| && ps[i].0 == k;
        assert more[i - 1].0 == k;
      }
    }
  }

  lemma {:induction false} FieldsEntry(members: Members, i: nat)
    requires MembersOk(members) && DistinctKeys(PairsOf(members)) && i < |PairsOf(members)|
    ensures var p := PairsOf(members)[i]; p.0 in Fields(members) && Fields(members)[p.0] == p.1
    decreases members
  {
    hide StringValue, Meaning;
    if members.NextMember? && i > 0 {
      var ps, more := PairsOf(members), PairsOf(members.more);
      assert ps == [ps[0]] + more;
      assert forall j | 0 <= j < |more| :: more[j] == ps[j + 1];
      assert ps[0].0 != ps[i].0;
      FieldsEntry(members.more, i - 1);
    }
  }

  lemma UniqueFields(members: Members)
    requires MembersOk(members)
    ensures UniqueObject(PairsOf(members)) == if DistinctKeys(PairsOf(members)) then Some(Fields(members)) else None
  {
    hide Fields, PairsMap, PairsOf;
    var ps := PairsOf(members);
    if DistinctKeys(ps) {
      forall k ensures k in PairsMap(ps) <==> k in Fields(members) {
        PairsMapKeys(ps, k);
        FieldsKeys(members, k);
      }
      forall k | k in PairsMap(ps) ensures PairsMap(ps)[k] == Fields(members)[k] {
        PairsMapKeys(ps, k);
        var i :| 0 <= i < |ps| && ps[i].0 == k;
        PairsMapEntry(ps, i);
        FieldsEntry(members, i);
      }
      assert PairsMap(ps) == Fields(members);
    }
  }

  lemma DistinctMeans(members: Members)
    requires MembersOk(members)
    ensures DistinctKeys(PairsOf(members))
       <==> forall i, j | 0 <= i < j < |Keys(members)| :: Keys(members)[i] != Keys(members)[j]
  {
    hide PairsOf, Keys;
  }

  lemma ReadMember(m: Member, tail: Text, limit: nat)
    requires KeyOk(m) && TreeOk(m.value)
    requires ParseValue(TreeText(m.value) + tail, limit)
          == if Admitted(m.value, limit) then Some((Meaning(m.value), tail)) else None
    ensures var u := KeyText(m) + (TreeText(m.value) + tail);
            && u != [] && u[0] == QUOTE
            && ParseMember(u, limit)
            == if Admitted(m.value, limit) then Some(((StringValue(m.key), Meaning(m.value)), tail)) else None
  {
    hide ParseValue, ParseString, SkipSpace, TreeText, StringText, StringValue, Admitted, Meaning;
    var x := TreeText(m.value) + tail;
    var u := KeyText(m) + x;
    var colon := [COLON] + (m.gap + x);
    assert u[1..] == StringText(m.key) + (m.colon + colon);
    ReadString(m.key, m.colon + colon);
    SkipBlank(m.colon, colon);
    assert colon[1..] == m.gap + x;
    FirstOfTree(m.value);
    assert x[0] == TreeText(m.value)[0];
    SkipBlank(m.gap, x);
  }

  /** What the parser makes of members once it knows the first one. */
  lemma MemberRead(u: Text, p: (Text, Json), after: Text, c: Code, w: Text, limit: nat)
    requires Blank(after) && (c == COMMA || c == 0x7D)
    requires ParseMember(u, limit) == Some((p, after + ([c] + w)))
    ensures c == 0x7D ==> ParseMembers(u, limit) == Some(([p], w))
    ensures c == COMMA ==>
              var more := ParseMembers(SkipSpace(w), limit);
              ParseMembers(u, limit) == if more.None? then None else Some(([p] + more.value.0, more.value.1))
  {
    AfterValue(after, c, w);
    assert ([c] + w)[1..] == w;
  }

  lemma MemberUnread(u: Text, limit: nat)
    requires ParseMember(u, limit).None?
    ensures ParseMembers(u, limit).None?
  {
  }

  lemma {:induction false} ReadMembers(members: Members, rest: Text, limit: nat)
    requires MembersOk(members)
    ensures var u := SkipSpace(MembersText(members) + rest);
            && u != [] && u[0] == QUOTE
            && ParseMembers(u, limit)
            == if ValuesAdmitted(members, limit) then Some((PairsOf(members), rest)) else None
    decreases members
  {
    hide ParseValue, ParseMember, ParseMembers, SkipSpace, TreeText, KeyText, Meaning, Admitted, StringValue;
    var m := members.member;
    var c: Code := if members.LastMember? then 0x7D else COMMA;
    var w := if members.LastMember? then rest else MembersText(members.more) + rest;
    var tail := m.after + ([c] + w);
    var u := KeyText(m) + (TreeText(m.value) + tail);
    assert MembersText(members) + rest == m.before + u;
    AfterValue(m.after, c, w);
    ReadTree(m.value, tail, limit);
    ReadMember(m, tail, limit);
    SkipBlank(m.before, u);
    if Admitted(m.value, limit) {
      MemberRead(u, (StringValue(m.key), Meaning(m.value)), m.after, c, w, limit);
    } else {
      MemberUnread(u, limit);
    }
    if members.NextMember? {
      ReadMembers(members.more, rest, limit);
    }
  }

  lemma ReadObject(members: Members, rest: Text, limit: nat)
    requires MembersOk(members)
    requires var u := SkipSpace(MembersText(members) + rest);
             && u != [] && u[0] == QUOTE
             && ParseMembers(u, limit)
             == if ValuesAdmitted(members, limit) then Some((PairsOf(members), rest)) else None
    ensures ParseValue(TreeText(Object(members)) + rest, limit)
         == if Admitted(Object(members), limit) then Some((Meaning(Object(members)), rest)) else None
  {
    hide ParseMembers, SkipSpace, UniqueObject, Fields, ValuesAdmitted, MembersText;
    var u := TreeText(Object(members)) + rest;
    assert u[0] == 0x7B && u[1..] == MembersText(members) + rest;
    UniqueFields(members);
    DistinctMeans(members);
  }

  // ---------------------------------------------------------------- spelling what was read

  lemma {:induction false} SpellTree(u: Text, limit: nat) returns (t: Tree)
    requires ParseValue(u, limit).Some?
    ensures TreeOk(t) && Admitted(t, limit) && Meaning(t) == ParseValue(u, limit).value.0
    ensures u == TreeText(t) + ParseValue(u, limit).value.1
    decreases |u|, 0
  {
    if u[0] == QUOTE {
      t := SpellQuoted(u, limit);
    } else if u[0] == 0x5B {
      var w := u[1..];
      var b := SpaceSplit(w);
      if SkipSpace(w)[0] == 0x5D {
        t := EmptyArray(b);
        EmptySpelled(u, b, 0x5D);
      } else {
        var items := SpellItems(w, limit);
        t := Array(items);
        ArraySpelled(u, items, limit);
      }
    } else if u[0] == 0x7B {
      var w := u[1..];
      var b := SpaceSplit(w);
      if SkipSpace(w)[0] == 0x7D {
        t := EmptyObject(b);
        EmptySpelled(u, b, 0x7D);
      } else {
        var members := SpellMembers(w, limit);
        t := Object(members);
        ObjectSpelled(u, members, limit);
      }
    } else {
      t := SpellPlain(u, limit);
    }
  }

  lemma EmptySpelled(u: Text, b: Text, c: Code)
    requires u != [] && u[1..] == b + SkipSpace(u[1..]) && SkipSpace(u[1..]) != [] && SkipSpace(u[1..])[0] == c
    ensures u == [u[0]] + b + [c] + SkipSpace(u[1..])[1..]
  {
    var v := SkipSpace(u[1..]);
    assert v == [c] + v[1..] && u == [u[0]] + u[1..];
  }

  lemma SpellQuoted(u: Text, limit: nat) returns (t: Tree)
    requires ParseValue(u, limit).Some? && u[0] == QUOTE
    ensures TreeOk(t) && Admitted(t, limit) && Meaning(t) == ParseValue(u, limit).value.0
    ensures u == TreeText(t) + ParseValue(u, limit).value.1
  {
    hide ParseString, StringOk, StringText, StringValue;
    var chars := SpellString(u[1..]);
    t := String(chars);
    assert u == [QUOTE] + u[1..];
  }

  /** Words and numbers. */
  lemma SpellPlain(u: Text, limit: nat) returns (t: Tree)
    requires ParseValue(u, limit).Some? && u[0] != QUOTE && u[0] != 0x5B && u[0] != 0x7B
    ensures TreeOk(t) && Admitted(t, limit) && Meaning(t) == ParseValue(u, limit).value.0
    ensures u == TreeText(t) + ParseValue(u, limit).value.1
  {
    hide ParseNumber, Meaning, Admitted;
    if HasPrefix(u, NULL_TEXT) {
      t := NullWord;
      assert u == u[..4] + u[4..];
      WordsAdmitted(limit);
    } else if HasPrefix(u, TRUE_TEXT) {
      t := TrueWord;
      assert u == u[..4] + u[4..];
      WordsAdmitted(limit);
    } else if HasPrefix(u, FALSE_TEXT) {
      t := FalseWord;
      assert u == u[..5] + u[5..];
      WordsAdmitted(limit);
    } else {
      t := SpellNumber(u, limit);
    }
  }

  lemma WordsAdmitted(limit: nat)
    ensures Admitted(NullWord, limit) && Admitted(TrueWord, limit) && Admitted(FalseWord, limit)
    ensures Meaning(NullWord) == Null && Meaning(TrueWord) == Bool(true) && Meaning(FalseWord) == Bool(false)
  {
  }

  lemma ArraySpelled(u: Text, items: Items, limit: nat)
    requires ParseValue(u, limit).Some? && u[0] == 0x5B && SkipSpace(u[1..])[0] != 0x5D
    requires ItemsOk(items) && ParseItems(SkipSpace(u[1..]), limit).Some?
    requires var (vs, rest) := ParseItems(SkipSpace(u[1..]), limit).value;
             ItemsMeaning(items) == vs && u[1..] == ItemsText(items) + rest
    ensures Meaning(Array(items)) == ParseValue(u, limit).value.0
    ensures u == TreeText(Array(items)) + ParseValue(u, limit).value.1
  {
    hide ParseItems, ItemsMeaning, ItemsText, SkipSpace;
    assert u == [0x5B] + u[1..];
  }

  lemma ObjectSpelled(u: Text, members: Members, limit: nat)
    requires ParseValue(u, limit).Some? && u[0] == 0x7B && SkipSpace(u[1..])[0] != 0x7D
    requires MembersOk(members) && ValuesAdmitted(members, limit) && ParseMembers(SkipSpace(u[1..]), limit).Some?
    requires var (ps, rest) := ParseMembers(SkipSpace(u[1..]), limit).value;
             PairsOf(members) == ps && u[1..] == MembersText(members) + rest
    ensures Admitted(Object(members), limit) && Meaning(Object(members)) == ParseValue(u, limit).value.0
    ensures u == TreeText(Object(members)) + ParseValue(u, limit).value.1
  {
    hide ParseMembers, PairsOf, Fields, MembersText, SkipSpace, PairsMap;
    assert u == [0x7B] + u[1..];
    UniqueFields(members);
    DistinctMeans(members);
  }

  lemma {:induction false} SpellItems(w: Text, limit: nat) returns (items: Items)
    requires ParseItems(SkipSpace(w), limit).Some?
    ensures ItemsOk(items) && ItemsAdmitted(items, limit)
    ensures var (vs, rest) := ParseItems(SkipSpace(w), limit).value;
            ItemsMeaning(items) == vs && w == ItemsText(items) + rest
    decreases |w|, 1
  {
    hide ParseValue, SkipSpace, TreeOk, TreeText, Meaning, Admitted;
    var u := SkipSpace(w);
    var before := SpaceSplit(w);
    var v := SpellTree(u, limit);
    var ahead := ParseValue(u, limit).value.1;
    var after := SpaceSplit(ahead);
    var x := SkipSpace(ahead);
    assert x == [x[0]] + x[1..];
    assert w == before + (TreeText(v) + (after + x));
    if x[0] == 0x5D {
      items := LastItem(Item(before, v, after));
    } else {
      var more := SpellItems(x[1..], limit);
      items := NextItem(Item(before, v, after), more);
    }
  }

  lemma SpellKey(u: Text, limit: nat) returns (key: seq<Char>, colon: Text, gap: Text, y: Text)
    requires ParseMember(u, limit).Some?
    ensures StringOk(key) && Blank(colon) && Blank(gap) && ParseValue(y, limit).Some?
    ensures var (v, rest) := ParseValue(y, limit).value; ParseMember(u, limit).value == ((StringValue(key), v), rest)
    ensures u == [QUOTE] + StringText(key) + colon + [COLON] + gap + y && |y| < |u|
  {
    hide ParseValue, ParseString, StringOk, StringText, StringValue, SkipSpace;
    key := SpellString(u[1..]);
    var afterKey := ParseString(u[1..]).value.1;
    colon := SpaceSplit(afterKey);
    var x := SkipSpace(afterKey);
    gap := SpaceSplit(x[1..]);
    y := SkipSpace(x[1..]);
    assert u == [QUOTE] + u[1..] && x == [COLON] + x[1..];
  }

  lemma {:induction false} SpellMembers(w: Text, limit: nat) returns (members: Members)
    requires ParseMembers(SkipSpace(w), limit).Some?
    ensures MembersOk(members) && ValuesAdmitted(members, limit)
    ensures var (ps, rest) := ParseMembers(SkipSpace(w), limit).value;
            PairsOf(members) == ps && w == MembersText(members) + rest
    decreases |w|, 1
  {
    hide ParseValue, ParseMember, ParseString, SkipSpace, TreeOk, TreeText, Meaning, Admitted, StringText, StringValue;
    var u := SkipSpace(w);
    var before := SpaceSplit(w);
    var key, colon, gap, y := SpellKey(u, limit);
    var v := SpellTree(y, limit);
    var ahead := ParseMember(u, limit).value.1;
    var after := SpaceSplit(ahead);
    var x := SkipSpace(ahead);
    assert x == [x[0]] + x[1..];
    var m := Member(before, key, colon, gap, v, after);
    assert u == KeyText(m) + y;
    if x[0] == 0x7D {
      members := LastMember(m);
    } else {
      var more := SpellMembers(x[1..], limit);
      members := NextMember(m, more);
    }
  }

  // ---------------------------------------------------------------- documents

  /** Every document of the grammar is read as it is meant, or refused when it is not admitted. */
  lemma ReadDocument(before: Text, t: Tree, after: Text, limit: nat)
    requires Blank(before) && TreeOk(t) && Blank(after)
    ensures ParseText(before + (TreeText(t) + after), limit) == if Admitted(t, limit) then Some(Meaning(t)) else None
  {
    hide ParseValue, TreeText, Meaning, Admitted, TreeOk;
    var u := TreeText(t) + after;
    FirstOfTree(t);
    assert u[0] == TreeText(t)[0];
    SkipBlank(before, u);
    assert Delimited(after) by { if after != [] { assert after[0] in after; } }
    ReadTree(t, after, limit);
    SkipBlank(after, []);
    assert after + [] == after;
  }

  /** The decoder accepts exactly the texts that spell an admitted tree, and returns its meaning. */
  lemma ReadsExactlyTheGrammar(text: Text, v: Json, limit: nat)
    ensures ParseText(text, limit) == Some(v) <==>
            exists before, t, after ::
              && Blank(before) && TreeOk(t) && Blank(after) && text == before + (TreeText(t) + after)
              && Admitted(t, limit) && Meaning(t) == v
  {
    hide ParseValue, TreeText, Meaning, Admitted, TreeOk;
    if ParseText(text, limit) == Some(v) {
      var before, t, after := SpellDocument(text, limit);
    }
    forall before, t, after |
      && Blank(before) && TreeOk(t) && Blank(after) && text == before + (TreeText(t) + after)
      && Admitted(t, limit) && Meaning(t) == v
      ensures ParseText(text, limit) == Some(v)
    {
      ReadDocument(before, t, after, limit);
    }
  }

  lemma SpellDocument(text: Text, limit: nat) returns (before: Text, t: Tree, after: Text)
    requires ParseText(text, limit).Some?
    ensures Blank(before) && TreeOk(t) && Blank(after) && text == before + (TreeText(t) + after)
    ensures Admitted(t, limit) && Meaning(t) == ParseText(text, limit).value
  {
    hide ParseValue, TreeText, Meaning, Admitted, TreeOk;
    before := SpaceSplit(text);
    t := SpellTree(SkipSpace(text), limit);
    after := SpaceSplit(ParseValue(SkipSpace(text), limit).value.1);
    assert after + [] == after;
  }

  /** An object that names a field twice is refused, however its keys are spelled, wherever the two
      members stand and whatever surrounds them. */
  lemma RepeatedFieldRefused(before: Text, members: Members, after: Text, limit: nat, i: nat, j: nat)
    requires Blank(before) && MembersOk(members) && Blank(after)
    requires i < j < |Keys(members)| && Keys(members)[i] == Keys(members)[j]
    ensures ParseText(before + (TreeText(Object(members)) + after), limit) == None
  {
    ReadDocument(before, Object(members), after, limit);
  }
}
