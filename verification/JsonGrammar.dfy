/** The grammar of JSON texts (sections 2 to 7 of RFC 8259, integers only) as syntax trees with
    their spelling and their meaning, and the proof that the decoder reads exactly these. */
module JsonGrammar {
  import opened Wrappers
  import opened Text
  import opened Json
  import opened JsonCodec

  // ---------------------------------------------------------------- characters of a string

  datatype Digit = Digit(value: nat, upper: bool)
  datatype Quad = Quad(a: Digit, b: Digit, c: Digit, d: Digit)

  /** A character as it stands, one of the two-character escapes, a UTF-16 unit, or a pair of units. */
  datatype Char = Plain(code: Code) | Short(index: nat) | Unit(quad: Quad) | Pair(high: Quad, low: Quad)

  const SHORT_LETTERS: seq<Code> := [0x22, 0x5C, 0x2F, 0x62, 0x66, 0x6E, 0x72, 0x74]
  const SHORT_CODES: seq<Code> := [0x22, 0x5C, 0x2F, 0x08, 0x0C, 0x0A, 0x0D, 0x09]

  predicate QuadOk(q: Quad) {
    q.a.value < 16 && q.b.value < 16 && q.c.value < 16 && q.d.value < 16
  }

  function QuadValue(q: Quad): Code
    requires QuadOk(q)
  {
    ((q.a.value * 16 + q.b.value) * 16 + q.c.value) * 16 + q.d.value
  }

  predicate CharOk(ch: Char) {
    match ch
    case Plain(c) => c >= 0x20 && c != QUOTE && c != BACKSLASH
    case Short(i) => i < 8
    case Unit(q) => QuadOk(q)
    case Pair(h, l) =>
      QuadOk(h) && QuadOk(l) && 0xD800 <= QuadValue(h) <= 0xDBFF && 0xDC00 <= QuadValue(l) <= 0xDFFF
  }

  function DigitCode(x: Digit): Code
    requires x.value < 16
  {
    if x.value < 10 then 0x30 + x.value else (if x.upper then 0x41 else 0x61) + x.value - 10
  }

  function QuadText(q: Quad): Text
    requires QuadOk(q)
  {
    [BACKSLASH, 0x75, DigitCode(q.a), DigitCode(q.b), DigitCode(q.c), DigitCode(q.d)]
  }

  function CharText(ch: Char): (t: Text)
    requires CharOk(ch)
    ensures t != []
  {
    match ch
    case Plain(c) => [c]
    case Short(i) => [BACKSLASH, SHORT_LETTERS[i]]
    case Unit(q) => QuadText(q)
    case Pair(h, l) => QuadText(h) + QuadText(l)
  }

  function CharCode(ch: Char): Code
    requires CharOk(ch)
  {
    match ch
    case Plain(c) => c
    case Short(i) => SHORT_CODES[i]
    case Unit(q) => QuadValue(q)
    case Pair(h, l) => 0x10000 + (QuadValue(h) - 0xD800) * 0x400 + (QuadValue(l) - 0xDC00)
  }

  /** Two units that would be read as one pair. */
  predicate Joins(a: Char, b: Char) {
    && a.Unit? && b.Unit? && QuadOk(a.quad) && QuadOk(b.quad)
    && 0xD800 <= QuadValue(a.quad) <= 0xDBFF && 0xDC00 <= QuadValue(b.quad) <= 0xDFFF
  }

  predicate StringOk(cs: seq<Char>) {
    cs == [] || (CharOk(cs[0]) && StringOk(cs[1..]) && (|cs| > 1 ==> !Joins(cs[0], cs[1])))
  }

  /** The characters and the closing quote. */
  function StringText(cs: seq<Char>): (t: Text)
    requires StringOk(cs)
    ensures t != []
  {
    if cs == [] then [QUOTE] else CharText(cs[0]) + StringText(cs[1..])
  }

  function StringValue(cs: seq<Char>): Text
    requires StringOk(cs)
  {
    if cs == [] then [] else [CharCode(cs[0])] + StringValue(cs[1..])
  }

  // ---------------------------------------------------------------- trees

  /** A value with all the blanks around its parts. */
  datatype Tree =
    | NullWord | TrueWord | FalseWord
    | Number(negative: bool, digits: Text)
    | String(chars: seq<Char>)
    | EmptyArray(space: Text)
    | Array(items: Items)
    | EmptyObject(space: Text)
    | Object(members: Members)

  datatype Item = Item(before: Text, value: Tree, after: Text)
  datatype Items = LastItem(item: Item) | NextItem(item: Item, more: Items)
  datatype Member = Member(before: Text, key: seq<Char>, colon: Text, gap: Text, value: Tree, after: Text)
  datatype Members = LastMember(member: Member) | NextMember(member: Member, more: Members)

  predicate Blank(t: Text) {
    forall c | c in t :: c == 0x20 || c == 0x09 || c == 0x0A || c == 0x0D
  }

  predicate TreeOk(t: Tree) {
    match t
    case Number(_, digits) => digits != [] && AllDigits(digits) && (digits[0] == 0x30 ==> |digits| == 1)
    case String(chars) => StringOk(chars)
    case EmptyArray(space) => Blank(space)
    case Array(items) => ItemsOk(items)
    case EmptyObject(space) => Blank(space)
    case Object(members) => MembersOk(members)
    case _ => true
  }

  predicate ItemsOk(items: Items) {
    match items
    case LastItem(i) => ItemBlanksOk(i) && TreeOk(i.value)
    case NextItem(i, more) => ItemBlanksOk(i) && TreeOk(i.value) && ItemsOk(more)
  }

  predicate MembersOk(members: Members) {
    match members
    case LastMember(m) => KeyOk(m) && TreeOk(m.value)
    case NextMember(m, more) => KeyOk(m) && TreeOk(m.value) && MembersOk(more)
  }

  predicate ItemBlanksOk(i: Item) { Blank(i.before) && Blank(i.after) }

  predicate KeyOk(m: Member) {
    Blank(m.before) && StringOk(m.key) && Blank(m.colon) && Blank(m.gap) && Blank(m.after)
  }

  // ---------------------------------------------------------------- spelling

  function TreeText(t: Tree): (r: Text)
    requires TreeOk(t)
    ensures r != []
  {
    match t
    case NullWord => NULL_TEXT
    case TrueWord => TRUE_TEXT
    case FalseWord => FALSE_TEXT
    case Number(negative, digits) => if negative then [MINUS] + digits else digits
    case String(chars) => [QUOTE] + StringText(chars)
    case EmptyArray(space) => [0x5B] + space + [0x5D]
    case Array(items) => [0x5B] + ItemsText(items)
    case EmptyObject(space) => [0x7B] + space + [0x7D]
    case Object(members) => [0x7B] + MembersText(members)
  }

  /** The items and the closing bracket. */
  function ItemsText(items: Items): Text
    requires ItemsOk(items)
  {
    match items
    case LastItem(i) => i.before + (TreeText(i.value) + (i.after + [0x5D]))
    case NextItem(i, more) => i.before + (TreeText(i.value) + (i.after + ([COMMA] + ItemsText(more))))
  }

  function KeyText(m: Member): Text
    requires KeyOk(m)
  {
    [QUOTE] + StringText(m.key) + m.colon + [COLON] + m.gap
  }

  /** The members and the closing brace. */
  function MembersText(members: Members): Text
    requires MembersOk(members)
  {
    match members
    case LastMember(m) => m.before + (KeyText(m) + (TreeText(m.value) + (m.after + [0x7D])))
    case NextMember(m, more) =>
      m.before + (KeyText(m) + (TreeText(m.value) + (m.after + ([COMMA] + MembersText(more)))))
  }

  // ---------------------------------------------------------------- meaning

  function Meaning(t: Tree): Json
    requires TreeOk(t)
  {
    match t
    case NullWord => Null
    case TrueWord => Bool(true)
    case FalseWord => Bool(false)
    case Number(negative, digits) =>
      var n: int := DecimalValue(digits);
      Int(if negative then -n else n)
    case String(chars) => Str(StringValue(chars))
    case EmptyArray(_) => Arr([])
    case Array(items) => Arr(ItemsMeaning(items))
    case EmptyObject(_) => Obj(map[])
    case Object(members) => Obj(Fields(members))
  }

  function ItemsMeaning(items: Items): seq<Json>
    requires ItemsOk(items)
  {
    match items
    case LastItem(i) => [Meaning(i.value)]
    case NextItem(i, more) => [Meaning(i.value)] + ItemsMeaning(more)
  }

  /** The decoded keys, in order. */
  function Keys(members: Members): (ks: seq<Text>)
    requires MembersOk(members)
    ensures ks != []
  {
    match members
    case LastMember(m) => [StringValue(m.key)]
    case NextMember(m, more) => [StringValue(m.key)] + Keys(more)
  }

  function Fields(members: Members): map<Text, Json>
    requires MembersOk(members)
  {
    match members
    case LastMember(m) => map[StringValue(m.key) := Meaning(m.value)]
    case NextMember(m, more) => Fields(more)[StringValue(m.key) := Meaning(m.value)]
  }

  /** What the decoder demands beyond the grammar: integers of at most `limit` digits, no negative
      zero, and no field twice in an object. */
  predicate Admitted(t: Tree, limit: nat)
    requires TreeOk(t)
  {
    match t
    case Number(negative, digits) => |digits| <= limit && !(negative && digits == [0x30])
    case Array(items) => ItemsAdmitted(items, limit)
    case Object(members) =>
      && ValuesAdmitted(members, limit)
      && forall i, j | 0 <= i < j < |Keys(members)| :: Keys(members)[i] != Keys(members)[j]
    case _ => true
  }

  predicate ItemsAdmitted(items: Items, limit: nat)
    requires ItemsOk(items)
  {
    match items
    case LastItem(i) => Admitted(i.value, limit)
    case NextItem(i, more) => Admitted(i.value, limit) && ItemsAdmitted(more, limit)
  }

  predicate ValuesAdmitted(members: Members, limit: nat)
    requires MembersOk(members)
  {
    match members
    case LastMember(m) => Admitted(m.value, limit)
    case NextMember(m, more) => Admitted(m.value, limit) && ValuesAdmitted(more, limit)
  }
}
