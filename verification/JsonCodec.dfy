/** The canonical encoder (sorted keys, no spaces, raw non-ASCII, escaped line separators)
    and the strict decoder (RFC 8259 grammar, no duplicate fields, bounded integers). */
module JsonCodec {
  import opened Wrappers
  import opened Text
  import opened Json
  import Utf8

  const MAX_INT_DIGITS := 100

  const QUOTE: Code := 0x22
  const BACKSLASH: Code := 0x5C
  const COMMA: Code := 0x2C
  const COLON: Code := 0x3A
  const MINUS: Code := 0x2D
  const NEWLINE: Code := 0x0A
  const TRUE_TEXT: Text := [0x74, 0x72, 0x75, 0x65]
  const FALSE_TEXT: Text := [0x66, 0x61, 0x6C, 0x73, 0x65]
  const NULL_TEXT: Text := [0x6E, 0x75, 0x6C, 0x6C]

  // ================================================================ encoder

  function HexDigit(n: int): Code
    requires 0 <= n < 16
  {
    if n < 10 then 0x30 + n else 0x61 + n - 10
  }

  /** How `json.dumps(..., ensure_ascii=False)` spells one character inside a string. */
  function EscapeChar(c: Code): (t: Text)
    ensures t != []
  {
    if c == QUOTE || c == BACKSLASH then [BACKSLASH, c]
    else if c == 0x08 then [BACKSLASH, 0x62]
    else if c == 0x0C then [BACKSLASH, 0x66]
    else if c == 0x0A then [BACKSLASH, 0x6E]
    else if c == 0x0D then [BACKSLASH, 0x72]
    else if c == 0x09 then [BACKSLASH, 0x74]
    else if c < 0x20 then [BACKSLASH, 0x75, 0x30, 0x30, HexDigit(c / 16), HexDigit(c % 16)]
    else [c]
  }

  function EscapeAll(s: Text): Text {
    if s == [] then [] else EscapeChar(s[0]) + EscapeAll(s[1..])
  }

  function EncodeString(s: Text): Text {
    [QUOTE] + EscapeAll(s) + [QUOTE]
  }

  function EncodeInt(n: int): Text {
    if n < 0 then [MINUS] + Decimal(-n) else Decimal(n)
  }

  function EncodeValue(v: Json): (t: Text)
    decreases v
  {
    match v
    case Null => NULL_TEXT
    case Bool(b) => if b then TRUE_TEXT else FALSE_TEXT
    case Int(n) => EncodeInt(n)
    case Str(s) => EncodeString(s)
    case Arr(items) => if items == [] then [0x5B, 0x5D] else [0x5B] + EncodeItems(v, items) + [0x5D]
    case Obj(fields) =>
      if fields == map[] then [0x7B, 0x7D]
      else
        var keys := SortedKeys(fields.Keys);
        [0x7B] + EncodeMembers(v, keys) + [0x7D]
  }

  function EncodeItems(ghost parent: Json, items: seq<Json>): Text
    requires forall w | w in items :: w < parent
    decreases parent, |items|
  {
    if items == [] then []
    else
      assert items[0] in items && forall w | w in items[1..] :: w in items;
      if |items| == 1 then EncodeValue(items[0])
      else EncodeValue(items[0]) + [COMMA] + EncodeItems(parent, items[1..])
  }

  function EncodeMembers(parent: Json, keys: seq<Text>): Text
    requires parent.Obj? && forall k | k in keys :: k in parent.fields
    decreases parent, |keys|
  {
    if keys == [] then []
    else
      assert keys[0] in keys && forall k | k in keys[1..] :: k in keys;
      var member := EncodeString(keys[0]) + [COLON] + EncodeValue(parent.fields[keys[0]]);
      if |keys| == 1 then member else member + [COMMA] + EncodeMembers(parent, keys[1..])
  }

  /** `.replace("\u2028", "\\u2028").replace("\u2029", "\\u2029")` */
  function EscapeSeparators(t: Text): Text {
    if t == [] then []
    else if t[0] == 0x2028 then [BACKSLASH, 0x75, 0x32, 0x30, 0x32, 0x38] + EscapeSeparators(t[1..])
    else if t[0] == 0x2029 then [BACKSLASH, 0x75, 0x32, 0x30, 0x32, 0x39] + EscapeSeparators(t[1..])
    else [t[0]] + EscapeSeparators(t[1..])
  }

  function CanonicalText(v: Json): Text {
    EscapeSeparators(EncodeValue(v) + [NEWLINE])
  }

  /** `coding_inference_canonical_json_bytes` on a dict or a list; None is ValueError. */
  function CanonicalBytes(v: Json, maximum: int): (r: Option<Utf8.Bytes>) {
    if !DepthAndUnicode(v, 0) then None
    else match Utf8.Encode(CanonicalText(v))
      case None => None
      case Some(body) => if |body| > maximum then None else Some(body)
  }

  // ================================================================ decoder

  predicate IsSpace(c: Code) {
    c == 0x20 || c == 0x09 || c == 0x0A || c == 0x0D
  }

  function SkipSpace(t: Text): (r: Text)
    ensures |r| <= |t|
    ensures r != [] ==> !IsSpace(r[0])
  {
    if t != [] && IsSpace(t[0]) then SkipSpace(t[1..]) else t
  }

  function HexValue(c: Code): int {
    if 0x30 <= c <= 0x39 then c - 0x30
    else if 0x41 <= c <= 0x46 then c - 0x41 + 10
    else if 0x61 <= c <= 0x66 then c - 0x61 + 10
    else -1
  }

  /** Four hexadecimal digits at the front of `t`. */
  function Hex4(t: Text): (r: Option<Code>) {
    if |t| < 4 then None
    else
      var a, b, c, d := HexValue(t[0]), HexValue(t[1]), HexValue(t[2]), HexValue(t[3]);
      if a < 0 || b < 0 || c < 0 || d < 0 then None else Some(a * 4096 + b * 256 + c * 16 + d)
  }

  /** A `\uXXXX` escape at the front of `t`. */
  function UnicodeEscape(t: Text): (r: Option<Code>) {
    if |t| >= 2 && t[0] == BACKSLASH && t[1] == 0x75 then Hex4(t[2..]) else None
  }

  predicate IsHigh(c: Code) {
    0xD800 <= c <= 0xDBFF
  }

  predicate IsLow(c: Code) {
    0xDC00 <= c <= 0xDFFF
  }

  function SimpleEscape(c: Code): (r: Option<Code>) {
    if c == QUOTE || c == BACKSLASH || c == 0x2F then Some(c)
    else if c == 0x62 then Some(0x08)
    else if c == 0x66 then Some(0x0C)
    else if c == 0x6E then Some(0x0A)
    else if c == 0x72 then Some(0x0D)
    else if c == 0x74 then Some(0x09)
    else None
  }

  /** One character of a string body and the number of text characters it takes. A high
      surrogate escape joins a low one that follows it; otherwise it stands alone. */
  function ParseChar(t: Text): (r: Option<(Code, nat)>)
    requires t != []
    ensures r.Some? ==> 1 <= r.value.1 <= |t|
  {
    if t[0] != BACKSLASH then
      if t[0] < 0x20 then None else Some((t[0], 1))
    else if |t| == 1 then None
    else if t[1] != 0x75 then
      match SimpleEscape(t[1])
      case None => None
      case Some(c) => Some((c, 2))
    else match UnicodeEscape(t)
      case None => None
      case Some(c) =>
        var next := UnicodeEscape(t[6..]);
        if IsHigh(c) && next.Some? && IsLow(next.value)
        then Some((0x10000 + (c - 0xD800) * 0x400 + (next.value - 0xDC00), 12))
        else Some((c, 6))
  }

  /** The rest of a string after its opening quote, and the text after its closing quote. */
  function ParseString(t: Text): (r: Option<(Text, Text)>)
    ensures r.Some? ==> |r.value.1| < |t|
  {
    if t == [] then None
    else if t[0] == QUOTE then Some(([], t[1..]))
    else match ParseChar(t)
      case None => None
      case Some((c, n)) =>
        match ParseString(t[n..])
        case None => None
        case Some((s, rest)) => Some(([c] + s, rest))
  }

  function DigitRun(t: Text): (n: nat)
    ensures n <= |t| && AllDigits(t[..n])
    ensures n < |t| ==> !IsDigit(t[n])
  {
    if t == [] || !IsDigit(t[0]) then 0
    else
      var n := DigitRun(t[1..]);
      assert t[..n + 1] == [t[0]] + t[1..][..n];
      n + 1
  }

  /** The digits after an optional minus sign. A fraction or an exponent makes a float,
      which this model leaves out; `limit` is the digit bound of `_parse_json_int`. */
  function ParseDigits(u: Text, negative: bool, limit: nat): (r: Option<(Json, Text)>)
    ensures r.Some? ==> |r.value.1| < |u|
  {
    var run := DigitRun(u);
    if run == 0 then None
    else
      var n := if u[0] == 0x30 then 1 else run;
      var rest := u[n..];
      assert AllDigits(u[..n]) by { assert forall i | 0 <= i < n :: u[..n][i] == u[..run][i]; }
      if rest != [] && (rest[0] == 0x2E || rest[0] == 0x65 || rest[0] == 0x45) then None
      else if (negative && u[0] == 0x30) || n > limit then None
      else
        var value: int := DecimalValue(u[..n]);
        Some((Int(if negative then -value else value), rest))
  }

  function ParseNumber(t: Text, limit: nat): (r: Option<(Json, Text)>)
    requires t != []
    ensures r.Some? ==> |r.value.1| < |t|
  {
    if t[0] == MINUS then ParseDigits(t[1..], true, limit) else ParseDigits(t, false, limit)
  }

  predicate HasPrefix(t: Text, word: Text) {
    |t| >= |word| && t[..|word|] == word
  }

  predicate DistinctKeys(pairs: seq<(Text, Json)>) {
    forall i, j | 0 <= i < j < |pairs| :: pairs[i].0 != pairs[j].0
  }

  predicate Mentions(pairs: seq<(Text, Json)>, k: Text) {
    exists i | 0 <= i < |pairs| :: pairs[i].0 == k
  }

  function PairsMap(pairs: seq<(Text, Json)>): map<Text, Json> {
    if pairs == [] then map[]
    else PairsMap(pairs[..|pairs| - 1])[pairs[|pairs| - 1].0 := pairs[|pairs| - 1].1]
  }

  lemma MentionsLast(pairs: seq<(Text, Json)>, k: Text)
    requires pairs != []
    ensures Mentions(pairs, k) <==> Mentions(pairs[..|pairs| - 1], k) || pairs[|pairs| - 1].0 == k
  {
    var n := |pairs| - 1;
    assert forall i | 0 <= i < n :: pairs[..n][i] == pairs[i];
  }

  lemma {:induction false} PairsMapKeys(pairs: seq<(Text, Json)>, k: Text)
    ensures k in PairsMap(pairs) <==> Mentions(pairs, k)
  {
    if pairs != [] {
      MentionsLast(pairs, k);
      PairsMapKeys(pairs[..|pairs| - 1], k);
    }
  }

  /** `_unique_object` as a value: None is the duplicate-field error. */
  function UniqueObject(pairs: seq<(Text, Json)>): Option<map<Text, Json>> {
    if DistinctKeys(pairs) then Some(PairsMap(pairs)) else None
  }

  lemma {:induction false} PairsMapEntry(pairs: seq<(Text, Json)>, i: nat)
    requires DistinctKeys(pairs) && i < |pairs|
    ensures pairs[i].0 in PairsMap(pairs) && PairsMap(pairs)[pairs[i].0] == pairs[i].1
    decreases |pairs|
  {
    var n := |pairs| - 1;
    if i < n {
      assert DistinctKeys(pairs[..n]) && pairs[..n][i] == pairs[i];
      PairsMapEntry(pairs[..n], i);
    }
  }

  /** `_unique_object` as the loop that fills a dict: it refuses exactly when a field occurs twice,
      and otherwise holds every field with its value and nothing else. */
  method FillUniqueObject(pairs: seq<(Text, Json)>) returns (r: Option<map<Text, Json>>)
    ensures r == UniqueObject(pairs)
    ensures r.None? <==> exists i, j :: 0 <= i < j < |pairs| && pairs[i].0 == pairs[j].0
    ensures r.Some? ==>
              && (forall k :: k in r.value <==> exists i :: 0 <= i < |pairs| && pairs[i].0 == k)
              && (forall i | 0 <= i < |pairs| :: r.value[pairs[i].0] == pairs[i].1)
  {
    hide PairsMap, Mentions;
    var result: map<Text, Json> := map[];
    var i := 0;
    assert PairsMap(pairs[..0]) == map[] by { EmptyPairs(pairs); }
    while i < |pairs|
      invariant 0 <= i <= |pairs|
      invariant DistinctKeys(pairs[..i]) && result == PairsMap(pairs[..i])
    {
      PairsMapKeys(pairs[..i], pairs[i].0);
      OneMorePair(pairs, i);
      if pairs[i].0 in result {
        return None;
      }
      result := result[pairs[i].0 := pairs[i].1];
      i := i + 1;
    }
    assert pairs[..i] == pairs;
    forall k ensures k in result <==> exists i :: 0 <= i < |pairs| && pairs[i].0 == k {
      PairsMapKeys(pairs, k);
      MentionsMeans(pairs, k);
    }
    forall i | 0 <= i < |pairs| ensures result[pairs[i].0] == pairs[i].1 {
      PairsMapEntry(pairs, i);
    }
    return Some(result);
  }

  lemma EmptyPairs(pairs: seq<(Text, Json)>)
    ensures PairsMap(pairs[..0]) == map[]
  {
  }

  lemma MentionsMeans(pairs: seq<(Text, Json)>, k: Text)
    ensures Mentions(pairs, k) <==> exists i :: 0 <= i < |pairs| && pairs[i].0 == k
  {
  }

  lemma OneMorePair(pairs: seq<(Text, Json)>, i: nat)
    requires i < |pairs| && DistinctKeys(pairs[..i])
    ensures PairsMap(pairs[..i + 1]) == PairsMap(pairs[..i])[pairs[i].0 := pairs[i].1]
    ensures Mentions(pairs[..i], pairs[i].0) ==> exists j | 0 <= j < i :: pairs[j].0 == pairs[i].0
    ensures !Mentions(pairs[..i], pairs[i].0) ==> DistinctKeys(pairs[..i + 1])
  {
    var a, b := pairs[..i], pairs[..i + 1];
    assert b[..i] == a;
    assert forall j | 0 <= j < i :: a[j] == pairs[j];
  }

  /** `json.loads` on the text at `t`: the value and the text after it. */
  function ParseValue(t: Text, limit: nat): (r: Option<(Json, Text)>)
    ensures r.Some? ==> |r.value.1| < |t|
    decreases |t|, 0
  {
    if t == [] then None
    else if t[0] == QUOTE then
      match ParseString(t[1..])
      case None => None
      case Some((s, rest)) => Some((Str(s), rest))
    else if t[0] == 0x5B then
      var u := SkipSpace(t[1..]);
      if u != [] && u[0] == 0x5D then Some((Arr([]), u[1..]))
      else
        match ParseItems(u, limit)
        case None => None
        case Some((items, rest)) => Some((Arr(items), rest))
    else if t[0] == 0x7B then
      var u := SkipSpace(t[1..]);
      if u != [] && u[0] == 0x7D then Some((Obj(map[]), u[1..]))
      else
        match ParseMembers(u, limit)
        case None => None
        case Some((pairs, rest)) =>
          match UniqueObject(pairs)
          case None => None
          case Some(fields) => Some((Obj(fields), rest))
    else if HasPrefix(t, NULL_TEXT) then Some((Null, t[4..]))
    else if HasPrefix(t, TRUE_TEXT) then Some((Bool(true), t[4..]))
    else if HasPrefix(t, FALSE_TEXT) then Some((Bool(false), t[5..]))
    else ParseNumber(t, limit)
  }

  /** One or more array items up to and including the closing bracket. */
  function ParseItems(t: Text, limit: nat): (r: Option<(seq<Json>, Text)>)
    ensures r.Some? ==> |r.value.1| < |t|
    decreases |t|, 1
  {
    match ParseValue(t, limit)
    case None => None
    case Some((v, afterValue)) =>
      var u := SkipSpace(afterValue);
      if u == [] then None
      else if u[0] == 0x5D then Some(([v], u[1..]))
      else if u[0] != COMMA then None
      else
        match ParseItems(SkipSpace(u[1..]), limit)
        case None => None
        case Some((vs, rest)) => Some(([v] + vs, rest))
  }

  /** One member: its key, colon and value. */
  function ParseMember(t: Text, limit: nat): (r: Option<((Text, Json), Text)>)
    ensures r.Some? ==> |r.value.1| < |t|
    decreases |t|, 1
  {
    if t == [] || t[0] != QUOTE then None
    else
      match ParseString(t[1..])
      case None => None
      case Some((k, afterKey)) =>
        var u := SkipSpace(afterKey);
        if u == [] || u[0] != COLON then None
        else
          match ParseValue(SkipSpace(u[1..]), limit)
          case None => None
          case Some((v, rest)) => Some(((k, v), rest))
  }

  /** One or more object members up to and including the closing brace. */
  function ParseMembers(t: Text, limit: nat): (r: Option<(seq<(Text, Json)>, Text)>)
    ensures r.Some? ==> |r.value.1| < |t|
    decreases |t|, 2
  {
    match ParseMember(t, limit)
    case None => None
    case Some((m, afterMember)) =>
      var u := SkipSpace(afterMember);
      if u == [] then None
      else if u[0] == 0x7D then Some(([m], u[1..]))
      else if u[0] != COMMA then None
      else
        match ParseMembers(SkipSpace(u[1..]), limit)
        case None => None
        case Some((ms, rest)) => Some(([m] + ms, rest))
  }

  /** `json.loads(text)`: one value with nothing but white space around it. */
  function ParseText(t: Text, limit: nat): (r: Option<Json>) {
    match ParseValue(SkipSpace(t), limit)
    case None => None
    case Some((v, rest)) => if SkipSpace(rest) == [] then Some(v) else None
  }

  /** `_decode_json_document`; None is ValueError. */
  function DecodeDocument(body: Utf8.Bytes, maximum: int): (r: Option<Json>) {
    if maximum <= 0 || body == [] || |body| > maximum then None
    else match Utf8.Decode(body)
      case None => None
      case Some(text) =>
        match ParseText(text, MAX_INT_DIGITS)
        case None => None
        case Some(v) => if DepthAndUnicode(v, 0) then Some(v) else None
  }
}
