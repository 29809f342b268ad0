/** Signed claim messages: NUL-joined fields for three actions of two arities. */
module ClaimMessages {
  import opened Wrappers
  import opened Text
  import Utf8

  const NUL: Code := 0
  const MAX_GENERATION := 0x7FFF_FFFF

  function Ascii(s: string): (t: Text)
    requires forall i | 0 <= i < |s| :: s[i] as int < 128
    ensures |t| == |s| && forall i | 0 <= i < |s| :: t[i] == s[i] as int
  {
    seq(|s|, i requires 0 <= i < |s| => s[i] as int)
  }

  /** Fit to be a field of a message: no NUL and no surrogate. */
  predicate FieldText(t: Text) {
    forall c | c in t :: c != NUL && !IsSurrogate(c)
  }

  lemma FieldTextAppend(a: Text, b: Text)
    ensures FieldText(a + b) <==> FieldText(a) && FieldText(b)
  {
  }

  // ---------------------------------------------------------------- fixed-width numerals

  function DigitChar(d: nat): Code
    requires d < 16
  {
    if d < 10 then 0x30 + d else 0x61 + d - 10
  }

  function Quotient(n: nat, base: nat): nat
    requires 2 <= base <= 16
  {
    n / base
  }

  function Remainder(n: nat, base: nat): (r: nat)
    requires 2 <= base <= 16
    ensures r < base
  {
    n % base
  }

  /** `n` has at most `w` digits in `base`. */
  predicate FitsWidth(n: nat, base: nat, w: nat)
    requires 2 <= base <= 16
    decreases w
  {
    if w == 0 then n == 0 else FitsWidth(Quotient(n, base), base, w - 1)
  }

  function Fixed(n: nat, base: nat, w: nat): (t: Text)
    requires 2 <= base <= 16
    ensures |t| == w && FieldText(t)
    decreases w
  {
    if w == 0 then [] else Fixed(Quotient(n, base), base, w - 1) + [DigitChar(Remainder(n, base))]
  }

  function DigitOf(c: Code): nat {
    if 0x30 <= c <= 0x39 then c - 0x30 else if 0x61 <= c <= 0x66 then c - 0x61 + 10 else 0
  }

  /** The number that digits stand for. */
  function Reading(t: Text, base: nat): nat {
    if t == [] then 0 else Reading(t[..|t| - 1], base) * base + DigitOf(t[|t| - 1])
  }

  lemma Recompose(n: nat, base: nat)
    requires 2 <= base <= 16
    ensures Quotient(n, base) * base + DigitOf(DigitChar(Remainder(n, base))) == n
  {
  }

  lemma {:induction false} FixedReads(n: nat, base: nat, w: nat)
    requires 2 <= base <= 16 && FitsWidth(n, base, w)
    ensures Reading(Fixed(n, base, w), base) == n
    decreases w
  {
    hide FieldText, DigitChar, Quotient, Remainder, DigitOf;
    if w > 0 {
      var t := Fixed(n, base, w);
      assert t[..w - 1] == Fixed(Quotient(n, base), base, w - 1);
      FixedReads(Quotient(n, base), base, w - 1);
      Recompose(n, base);
    }
  }

  // ---------------------------------------------------------------- UUIDs and timestamps

  function Power16(w: nat): nat {
    if w == 0 then 1 else 16 * Power16(w - 1)
  }

  lemma {:induction false} BelowPowerFits(n: nat, w: nat)
    requires n < Power16(w)
    ensures FitsWidth(n, 16, w)
  {
    if w > 0 { BelowPowerFits(n / 16, w - 1); }
  }

  /** A UUID is its 128-bit integer. */
  predicate UuidOk(u: nat) { u < Power16(32) }

  /** `str(uuid)`: 8-4-4-4-12 lower-case hexadecimal digits. */
  function UuidText(u: nat): Text {
    var h := Fixed(u, 16, 32);
    h[..8] + [0x2D] + h[8..12] + [0x2D] + h[12..16] + [0x2D] + h[16..20] + [0x2D] + h[20..]
  }

  lemma UuidParts(u: nat)
    ensures var t, h := UuidText(u), Fixed(u, 16, 32);
            && |t| == 36 && h == t[..8] + t[9..13] + t[14..18] + t[19..23] + t[24..]
  {
    hide Fixed;
    var t, h := UuidText(u), Fixed(u, 16, 32);
    assert h[..8] == t[..8] && h[8..12] == t[9..13] && h[12..16] == t[14..18]
           && h[16..20] == t[19..23] && h[20..] == t[24..];
  }

  lemma UuidTextField(u: nat)
    ensures FieldText(UuidText(u))
  {
    hide Fixed;
    var h := Fixed(u, 16, 32);
    forall c | c in UuidText(u) ensures c in h || c == 0x2D {
    }
  }

  /** The 32 digits of a UUID, in five groups with dashes between, read as its number. */
  lemma UuidReads(u: nat)
    requires UuidOk(u)
    ensures var t := UuidText(u);
            && |t| == 36 && t[8] == t[13] == t[18] == t[23] == 0x2D
            && Reading(t[..8] + t[9..13] + t[14..18] + t[19..23] + t[24..], 16) == u
  {
    hide Fixed, FitsWidth, Reading;
    UuidParts(u);
    BelowPowerFits(u, 32);
    FixedReads(u, 16, 32);
  }

  lemma UuidTextInjective(u: nat, v: nat)
    requires UuidOk(u) && UuidOk(v) && UuidText(u) == UuidText(v)
    ensures u == v
  {
    hide UuidText, Reading;
    UuidReads(u);
    UuidReads(v);
  }

  /** A point in time in UTC. */
  datatype Utc = Utc(year: nat, month: nat, day: nat, hour: nat, minute: nat, second: nat, micro: nat)

  predicate UtcOk(t: Utc) {
    && 1 <= t.year <= 9999 && 1 <= t.month <= 12 && 1 <= t.day <= 31
    && t.hour < 24 && t.minute < 60 && t.second < 60 && t.micro < 1_000_000
  }

  /** `isoformat(timespec="microseconds")` of a UTC datetime: YYYY-MM-DDThh:mm:ss.ffffff+00:00 */
  function UtcText(t: Utc): Text {
    Fixed(t.year, 10, 4) + [0x2D] + Fixed(t.month, 10, 2) + [0x2D] + Fixed(t.day, 10, 2) + [0x54]
    + Fixed(t.hour, 10, 2) + [0x3A] + Fixed(t.minute, 10, 2) + [0x3A] + Fixed(t.second, 10, 2) + [0x2E]
    + Fixed(t.micro, 10, 6) + [0x2B, 0x30, 0x30, 0x3A, 0x30, 0x30]
  }

  lemma UtcParts(t: Utc)
    ensures var r := UtcText(t);
            && |r| == 32
            && r[..4] == Fixed(t.year, 10, 4) && r[5..7] == Fixed(t.month, 10, 2) && r[8..10] == Fixed(t.day, 10, 2)
            && r[11..13] == Fixed(t.hour, 10, 2) && r[14..16] == Fixed(t.minute, 10, 2)
            && r[17..19] == Fixed(t.second, 10, 2)
            && r[20..26] == Fixed(t.micro, 10, 6)
  {
    hide Fixed;
  }

  lemma UtcTextField(t: Utc)
    ensures FieldText(UtcText(t))
  {
    hide Fixed;
    var a := Fixed(t.year, 10, 4) + [0x2D] + Fixed(t.month, 10, 2) + [0x2D] + Fixed(t.day, 10, 2) + [0x54];
    var b := Fixed(t.hour, 10, 2) + [0x3A] + Fixed(t.minute, 10, 2) + [0x3A] + Fixed(t.second, 10, 2) + [0x2E];
    var c := Fixed(t.micro, 10, 6) + [0x2B, 0x30, 0x30, 0x3A, 0x30, 0x30];
    assert FieldText(a) && FieldText(b) && FieldText(c);
    assert UtcText(t) == a + b + c;
    FieldTextAppend(a, b);
    FieldTextAppend(a + b, c);
  }

  lemma UtcFits(t: Utc)
    requires UtcOk(t)
    ensures FitsWidth(t.year, 10, 4) && FitsWidth(t.month, 10, 2) && FitsWidth(t.day, 10, 2) && FitsWidth(t.hour, 10, 2)
    ensures FitsWidth(t.minute, 10, 2) && FitsWidth(t.second, 10, 2) && FitsWidth(t.micro, 10, 6)
  {
  }

  /** YYYY-MM-DDThh:mm:ss.ffffff+00:00 with every component at its place. */
  lemma UtcReads(t: Utc)
    requires UtcOk(t)
    ensures var r := UtcText(t);
            && |r| == 32 && r[4] == r[7] == 0x2D && r[10] == 0x54 && r[13] == r[16] == 0x3A && r[19] == 0x2E
            && r[26..] == [0x2B, 0x30, 0x30, 0x3A, 0x30, 0x30]
            && Reading(r[..4], 10) == t.year && Reading(r[5..7], 10) == t.month && Reading(r[8..10], 10) == t.day
            && Reading(r[11..13], 10) == t.hour && Reading(r[14..16], 10) == t.minute
            && Reading(r[17..19], 10) == t.second && Reading(r[20..26], 10) == t.micro
  {
    hide Fixed, FitsWidth, Reading;
    UtcParts(t);
    UtcFits(t);
    FixedReads(t.year, 10, 4);
    FixedReads(t.month, 10, 2);
    FixedReads(t.day, 10, 2);
    FixedReads(t.hour, 10, 2);
    FixedReads(t.minute, 10, 2);
    FixedReads(t.second, 10, 2);
    FixedReads(t.micro, 10, 6);
  }

  lemma UtcTextInjective(s: Utc, t: Utc)
    requires UtcOk(s) && UtcOk(t)
    ensures UtcText(s) == UtcText(t) ==> s == t
  {
    hide UtcText, Reading;
    UtcReads(s);
    UtcReads(t);
  }

  // ---------------------------------------------------------------- joining with NUL

  /** `"\x00".join(fields)` */
  function Join(fields: seq<Text>): Text {
    if fields == [] then [] else if |fields| == 1 then fields[0] else fields[0] + [NUL] + Join(fields[1..])
  }

  function FirstNul(t: Text): (n: nat)
    ensures n <= |t|
  {
    if t == [] || t[0] == NUL then 0 else 1 + FirstNul(t[1..])
  }

  lemma {:induction false} FirstNulAfterField(a: Text, s: Text)
    requires NUL !in a && (s == [] || s[0] == NUL)
    ensures FirstNul(a + s) == |a|
  {
    if a == [] {
      assert a + s == s;
    } else {
      assert (a + s)[1..] == a[1..] + s;
      FirstNulAfterField(a[1..], s);
    }
  }

  /** Both texts are cut at their first NUL. */
  lemma FirstField(a: Text, s: Text, b: Text, t: Text)
    requires NUL !in a && NUL !in b && a + s == b + t
    requires (s == [] || s[0] == NUL) && (t == [] || t[0] == NUL)
    ensures a == b && s == t
  {
    FirstNulAfterField(a, s);
    FirstNulAfterField(b, t);
    assert a == (a + s)[..|a|] && b == (b + t)[..|b|];
    assert s == (a + s)[|a|..] && t == (b + t)[|b|..];
  }

  /** Fields without NUL can be read back, their number included. */
  lemma {:induction false} JoinInjective(xs: seq<Text>, ys: seq<Text>)
    requires xs != [] && ys != [] && Join(xs) == Join(ys)
    requires (forall f | f in xs :: NUL !in f) && (forall f | f in ys :: NUL !in f)
    ensures xs == ys
  {
    var s := if |xs| == 1 then [] else [NUL] + Join(xs[1..]);
    var t := if |ys| == 1 then [] else [NUL] + Join(ys[1..]);
    assert Join(xs) == xs[0] + s && Join(ys) == ys[0] + t;
    assert xs[0] in xs && ys[0] in ys;
    FirstField(xs[0], s, ys[0], t);
    if |xs| > 1 && |ys| > 1 {
      assert Join(xs[1..]) == s[1..] == t[1..] == Join(ys[1..]);
      assert forall f | f in xs[1..] :: f in xs;
      assert forall f | f in ys[1..] :: f in ys;
      JoinInjective(xs[1..], ys[1..]);
    }
    assert xs == [xs[0]] + xs[1..] && ys == [ys[0]] + ys[1..];
  }

  /** The fields of a joined text, as its recipient finds them. */
  function SplitAtNul(t: Text): seq<Text>
    decreases |t|
  {
    var n := FirstNul(t);
    if n == |t| then [t] else [t[..n]] + SplitAtNul(t[n + 1..])
  }

  lemma SplitFirst(a: Text, s: Text)
    requires NUL !in a && (s == [] || s[0] == NUL)
    ensures SplitAtNul(a + s) == [a] + (if s == [] then [] else SplitAtNul(s[1..]))
  {
    hide FirstNul;
    var t := a + s;
    FirstNulAfterField(a, s);
    assert t[..|a|] == a;
    if s != [] { assert t[|a| + 1..] == s[1..]; } else { assert t == a; }
  }

  lemma {:induction false} SplitJoin(fields: seq<Text>)
    requires fields != [] && forall f | f in fields :: NUL !in f
    ensures SplitAtNul(Join(fields)) == fields
  {
    hide SplitAtNul;
    assert fields[0] in fields && forall f | f in fields[1..] :: f in fields;
    assert fields == [fields[0]] + fields[1..];
    var s := if |fields| == 1 then [] else [NUL] + Join(fields[1..]);
    assert Join(fields) == fields[0] + s;
    SplitFirst(fields[0], s);
    if |fields| > 1 {
      SplitJoin(fields[1..]);
      assert s[1..] == Join(fields[1..]);
    }
  }

  /** A joined text has a NUL between any two fields, and no others exactly when no field has one. */
  lemma {:induction false} JoinNuls(fields: seq<Text>)
    requires fields != []
    ensures multiset(Join(fields))[NUL] >= |fields| - 1
    ensures multiset(Join(fields))[NUL] == |fields| - 1 <==> forall f | f in fields :: NUL !in f
  {
    assert fields == [fields[0]] + fields[1..];
    assert NUL in fields[0] <==> multiset(fields[0])[NUL] > 0;
    if |fields| > 1 {
      JoinNuls(fields[1..]);
      assert multiset(Join(fields)) == multiset(fields[0]) + multiset{NUL} + multiset(Join(fields[1..]));
      assert forall f | f in fields :: f == fields[0] || f in fields[1..];
    }
  }

  // ---------------------------------------------------------------- messages

  datatype Stamp = Naive | Aware(utc: Utc)

  /** `_signing_message`; None is an error. */
  function SigningMessage(domain: Text, hotkey: Text, instance: Text, run: nat, nonce: nat, at: Stamp,
                          ticket: Option<nat>, generation: Option<int>): Option<Utf8.Bytes>
  {
    if at.Naive? then None
    else if run == 0 || ticket.None? != generation.None? then None
    else if ticket.Some? && (ticket.value == 0 || !(1 <= generation.value <= MAX_GENERATION)) then None
    else Utf8.Encode(Join(MessageFields(domain, hotkey, instance, run, nonce, at.utc, ticket, generation)))
  }

  function MessageFields(domain: Text, hotkey: Text, instance: Text, run: nat, nonce: nat, at: Utc,
                         ticket: Option<nat>, generation: Option<int>): seq<Text>
  {
    [domain, hotkey, instance, UuidText(run)]
    + (if ticket.Some? && generation.Some? && generation.value >= 0
       then [UuidText(ticket.value), Decimal(generation.value)]
       else [])
    + [UuidText(nonce), UtcText(at)]
  }

  datatype Action = Start | Heartbeat

  /** A claim request of any of the three kinds; `next` carries no ticket. */
  datatype Request =
    | Next(hotkey: Text, instance: Text, run: nat, nonce: nat, at: Utc)
    | Act(action: Action, hotkey: Text, instance: Text, run: nat, nonce: nat, at: Utc, ticket: nat, generation: nat)

  const NEXT_DOMAIN := "dittobench-coding-ticket-claim-next:v2"
  const START_DOMAIN := "dittobench-coding-ticket-claim-start:v2"
  const HEARTBEAT_DOMAIN := "dittobench-coding-ticket-claim-heartbeat:v2"

  function Domain(r: Request): string {
    match r
    case Next(_, _, _, _, _) => NEXT_DOMAIN
    case Act(action, _, _, _, _, _, _, _) => if action == Start then START_DOMAIN else HEARTBEAT_DOMAIN
  }

  predicate IsBase58(c: Code) {
    (0x31 <= c <= 0x39) || (0x41 <= c <= 0x5A && c != 0x49 && c != 0x4F) || (0x61 <= c <= 0x7A && c != 0x6C)
  }

  /** Some of the characters that an identifier may not contain: controls, spaces, surrogates. */
  predicate NeverInIdentifier(c: Code) {
    c <= 0x20 || 0x7F <= c <= 0xA0 || IsSurrogate(c)
  }

  /** The values that the parameter types of the message builders admit. */
  predicate Typed(r: Request) {
    && UuidOk(r.run) && UuidOk(r.nonce) && UtcOk(r.at)
    && (r.Act? ==> UuidOk(r.ticket))
  }

  /** What the builders demand of run, ticket and generation. */
  predicate Signable(r: Request) {
    r.run != 0 && (r.Act? ==> r.ticket != 0 && 1 <= r.generation <= MAX_GENERATION)
  }

  /** What the request validators guarantee. */
  predicate RequestOk(r: Request) {
    && Typed(r) && Signable(r) && r.nonce != 0
    && 47 <= |r.hotkey| <= 48 && (forall c | c in r.hotkey :: IsBase58(c))
    && 1 <= |r.instance| <= 128 && (forall c | c in r.instance :: !NeverInIdentifier(c))
  }

  lemma DomainsAscii(r: Request)
    ensures forall i | 0 <= i < |Domain(r)| :: 0 < Domain(r)[i] as int < 128
  {
  }

  function FieldsOf(r: Request): seq<Text> {
    DomainsAscii(r);
    match r
    case Next(hotkey, instance, run, nonce, at) =>
      MessageFields(Ascii(Domain(r)), hotkey, instance, run, nonce, at, None, None)
    case Act(action, hotkey, instance, run, nonce, at, ticket, generation) =>
      MessageFields(Ascii(Domain(r)), hotkey, instance, run, nonce, at, Some(ticket), Some(generation))
  }

  /** `coding_claim_next_signing_message` and `coding_claim_action_signing_message` */
  function MessageOf(r: Request): Option<Utf8.Bytes> {
    DomainsAscii(r);
    match r
    case Next(hotkey, instance, run, nonce, at) =>
      SigningMessage(Ascii(Domain(r)), hotkey, instance, run, nonce, Aware(at), None, None)
    case Act(action, hotkey, instance, run, nonce, at, ticket, generation) =>
      SigningMessage(Ascii(Domain(r)), hotkey, instance, run, nonce, Aware(at), Some(ticket), Some(generation))
  }

  lemma FieldsAreFieldText(r: Request)
    requires RequestOk(r)
    ensures forall f | f in FieldsOf(r) :: FieldText(f)
  {
    hide UuidText, UtcText, Decimal, Domain;
    DomainsAscii(r);
    UuidTextField(r.run); UuidTextField(r.nonce); UtcTextField(r.at);
    if r.Act? {
      UuidTextField(r.ticket);
      assert FieldText(Decimal(r.generation)) by { DecimalField(r.generation); }
    }
    assert FieldText(Ascii(Domain(r)));
    assert FieldText(r.hotkey) && FieldText(r.instance);
  }

  lemma DecimalField(n: nat)
    ensures FieldText(Decimal(n))
  {
  }

  lemma UnicodeAppend(a: Text, b: Text)
    ensures IsUnicode(a + b) <==> IsUnicode(a) && IsUnicode(b)
  {
    if IsUnicode(a + b) {
      assert forall i | 0 <= i < |a| :: (a + b)[i] == a[i];
      assert forall i | 0 <= i < |b| :: (a + b)[|a| + i] == b[i];
    }
  }

  lemma {:induction false} JoinUnicode(fields: seq<Text>)
    ensures IsUnicode(Join(fields)) <==> forall f | f in fields :: IsUnicode(f)
  {
    hide IsUnicode;
    if |fields| > 1 {
      JoinUnicode(fields[1..]);
      assert fields == [fields[0]] + fields[1..];
      UnicodeAppend(fields[0] + [NUL], Join(fields[1..]));
      UnicodeAppend(fields[0], [NUL]);
      NulUnicode();
    } else if |fields| == 1 {
      assert fields == [fields[0]];
    } else {
      NulUnicode();
    }
  }

  lemma NulUnicode()
    ensures IsUnicode([NUL]) && IsUnicode([])
  {
  }

  lemma FieldTextUnicode(t: Text)
    requires FieldText(t)
    ensures IsUnicode(t)
  {
    forall i | 0 <= i < |t| ensures !IsSurrogate(t[i]) { assert t[i] in t; }
  }

  /** A validated request always has a message, and it is the encoding of its joined fields. */
  lemma MessageDefined(r: Request)
    requires RequestOk(r)
    ensures MessageOf(r).Some? && MessageOf(r) == Utf8.Encode(Join(FieldsOf(r)))
  {
    hide MessageFields, Join, Domain, Ascii;
    FieldsAreFieldText(r);
    forall f | f in FieldsOf(r) ensures IsUnicode(f) { FieldTextUnicode(f); }
    JoinUnicode(FieldsOf(r));
    Utf8.EncodeDefined(Join(FieldsOf(r)));
  }

  lemma AsciiInjective(a: string, b: string)
    requires forall i | 0 <= i < |a| :: a[i] as int < 128
    requires forall i | 0 <= i < |b| :: b[i] as int < 128
    requires Ascii(a) == Ascii(b)
    ensures a == b
  {
  }

  lemma DomainsDiffer(a: Request, b: Request)
    requires Domain(a) == Domain(b)
    ensures a.Next? <==> b.Next?
    ensures a.Act? && b.Act? ==> a.action == b.action
  {
  }

  /** Which field of the list holds what. */
  lemma FieldPositions(r: Request)
    ensures var f := FieldsOf(r);
            && |f| == (if r.Next? then 6 else 8)
            && (DomainsAscii(r); f[0] == Ascii(Domain(r)))
            && f[1] == r.hotkey && f[2] == r.instance && f[3] == UuidText(r.run)
            && (r.Act? ==> f[4] == UuidText(r.ticket) && f[5] == Decimal(r.generation))
            && f[|f| - 2] == UuidText(r.nonce) && f[|f| - 1] == UtcText(r.at)
  {
    hide UuidText, UtcText, Decimal, Domain, Ascii;
  }

  lemma FieldsDetermineRequest(a: Request, b: Request)
    requires Typed(a) && Typed(b) && FieldsOf(a) == FieldsOf(b)
    ensures a == b
  {
    hide UuidText, UtcText, Decimal, Domain, Ascii, FieldsOf;
    FieldPositions(a);
    FieldPositions(b);
    DomainsAscii(a);
    DomainsAscii(b);
    AsciiInjective(Domain(a), Domain(b));
    DomainsDiffer(a, b);
    UuidTextInjective(a.run, b.run);
    UuidTextInjective(a.nonce, b.nonce);
    UtcTextInjective(a.at, b.at);
    if a.Act? {
      UuidTextInjective(a.ticket, b.ticket);
      DecimalRoundTrip(a.generation);
      DecimalRoundTrip(b.generation);
    }
  }

  // ---------------------------------------------------------------- exactly when a message is unambiguous

  lemma MessageEncodesFields(r: Request)
    ensures MessageOf(r) == if Signable(r) then Utf8.Encode(Join(FieldsOf(r))) else None
  {
    hide MessageFields, Join, Domain, Ascii;
  }

  /** Exactly when the builders return a message: run and ticket are not nil, the generation is a
      positive signed 32-bit number, and the two free texts can be encoded. */
  lemma DefinedIff(r: Request)
    ensures MessageOf(r).Some? <==>
            && r.run != 0 && (r.Act? ==> r.ticket != 0 && 1 <= r.generation <= 0x7FFF_FFFF)
            && IsUnicode(r.hotkey) && IsUnicode(r.instance)
  {
    hide MessageOf, FieldsOf, Join, IsUnicode, UuidText, UtcText, Decimal, Domain;
    MessageEncodesFields(r);
    Utf8.EncodeDefined(Join(FieldsOf(r)));
    JoinUnicode(FieldsOf(r));
    FieldPositions(r);
    FixedFieldsUnicode(r);
    var f := FieldsOf(r);
    assert f[1] in f && f[2] in f;
  }

  /** All fields but the hotkey and the instance can be encoded. */
  lemma FixedFieldsUnicode(r: Request)
    ensures var f := FieldsOf(r); forall i | 0 <= i < |f| && i != 1 && i != 2 :: IsUnicode(f[i])
  {
    hide UuidText, UtcText, Decimal, Domain, FieldsOf, IsUnicode;
    FieldPositions(r);
    DomainsAscii(r);
    FieldTextUnicode(Ascii(Domain(r)));
    UuidTextField(r.run); UuidTextField(r.nonce); UtcTextField(r.at);
    FieldTextUnicode(UuidText(r.run));
    FieldTextUnicode(UuidText(r.nonce));
    FieldTextUnicode(UtcText(r.at));
    if r.Act? {
      UuidTextField(r.ticket);
      FieldTextUnicode(UuidText(r.ticket));
      assert FieldText(Decimal(r.generation)) by { DecimalField(r.generation); }
      FieldTextUnicode(Decimal(r.generation));
    }
  }

  /** A message that is defined can be read back to its joined fields. */
  lemma SameJoin(a: Request, b: Request)
    requires MessageOf(a).Some? && MessageOf(a) == MessageOf(b)
    ensures Join(FieldsOf(a)) == Join(FieldsOf(b))
  {
    hide MessageOf, FieldsOf, Join;
    MessageEncodesFields(a);
    MessageEncodesFields(b);
    Utf8.DecodeEncode(Join(FieldsOf(a)));
    Utf8.DecodeEncode(Join(FieldsOf(b)));
  }

  lemma DomainFirst(r: Request) returns (domain: Text, rest: Text)
    ensures (DomainsAscii(r); domain == Ascii(Domain(r)))
    ensures NUL !in domain && rest != [] && rest[0] == NUL && Join(FieldsOf(r)) == domain + rest
  {
    hide Domain, FieldsOf;
    var f := FieldsOf(r);
    FieldPositions(r);
    DomainsAscii(r);
    domain, rest := f[0], [NUL] + Join(f[1..]);
    assert Join(f) == domain + rest;
  }

  /** The domain has no NUL, so it can be read off any message, whatever the other fields hold. */
  lemma SameDomain(a: Request, b: Request)
    requires Join(FieldsOf(a)) == Join(FieldsOf(b))
    ensures Domain(a) == Domain(b)
  {
    hide Domain, FieldsOf, Ascii, Join;
    var c, s := DomainFirst(a);
    var d, t := DomainFirst(b);
    FirstField(c, s, d, t);
    DomainsAscii(a);
    DomainsAscii(b);
    AsciiInjective(Domain(a), Domain(b));
  }

  /** Only the hotkey and the instance can hold a NUL. */
  lemma FieldsWithNul(r: Request)
    ensures (forall f | f in FieldsOf(r) :: NUL !in f) <==> NUL !in r.hotkey && NUL !in r.instance
  {
    hide UuidText, UtcText, Decimal, Domain, FieldsOf;
    var f := FieldsOf(r);
    FieldPositions(r);
    DomainsAscii(r);
    UuidTextField(r.run); UuidTextField(r.nonce); UtcTextField(r.at);
    if r.Act? {
      UuidTextField(r.ticket);
      assert FieldText(Decimal(r.generation)) by { DecimalField(r.generation); }
    }
    assert f[1] in f && f[2] in f;
  }

  lemma CleanMessageUnique(r: Request, other: Request)
    requires Typed(r) && Typed(other) && MessageOf(r).Some? && MessageOf(other) == MessageOf(r)
    requires NUL !in r.hotkey && NUL !in r.instance
    ensures other == r
  {
    hide MessageOf, FieldsOf, Join, Domain, Typed;
    SameJoin(r, other);
    SameDomain(r, other);
    DomainsDiffer(r, other);
    FieldPositions(r);
    FieldPositions(other);
    FieldsWithNul(r);
    JoinNuls(FieldsOf(r));
    JoinNuls(FieldsOf(other));
    JoinInjective(FieldsOf(r), FieldsOf(other));
    FieldsDetermineRequest(other, r);
  }

  /** The request with another hotkey and instance. */
  function Moved(r: Request, hotkey: Text, instance: Text): Request {
    r.(hotkey := hotkey, instance := instance)
  }

  lemma MovedDomain(r: Request, hotkey: Text, instance: Text)
    ensures Domain(Moved(r, hotkey, instance)) == Domain(r)
  {
  }

  lemma MovedFields(r: Request, hotkey: Text, instance: Text) returns (domain: Text, tail: seq<Text>)
    ensures tail != [] && FieldsOf(r) == [domain, r.hotkey, r.instance] + tail
    ensures FieldsOf(Moved(r, hotkey, instance)) == [domain, hotkey, instance] + tail
  {
    hide UuidText, UtcText, Decimal, Ascii, FieldsOf, Domain;
    var m := Moved(r, hotkey, instance);
    MovedDomain(r, hotkey, instance);
    FieldPositions(r);
    FieldPositions(m);
    domain, tail := FieldsOf(r)[0], FieldsOf(r)[3..];
    assert FieldsOf(m)[3..] == tail;
  }

  /** Only the text around the boundary of hotkey and instance matters to the message. */
  lemma MovedMessage(r: Request, hotkey: Text, instance: Text)
    requires hotkey + [NUL] + instance == r.hotkey + [NUL] + r.instance
    ensures MessageOf(Moved(r, hotkey, instance)) == MessageOf(r)
  {
    hide MessageOf, FieldsOf, Join, Domain, Ascii;
    var m := Moved(r, hotkey, instance);
    MessageEncodesFields(r);
    MessageEncodesFields(m);
    var domain, tail := MovedFields(r, hotkey, instance);
    JoinThree(domain, r.hotkey, r.instance, tail);
    JoinThree(domain, hotkey, instance, tail);
    assert [NUL] + hotkey + [NUL] + instance == [NUL] + (hotkey + [NUL] + instance);
    assert [NUL] + r.hotkey + [NUL] + r.instance == [NUL] + (r.hotkey + [NUL] + r.instance);
  }

  /** A NUL in the hotkey or the instance can serve as their boundary instead. */
  lemma NulMovesBoundary(r: Request) returns (other: Request)
    requires Typed(r) && (NUL in r.hotkey || NUL in r.instance)
    ensures Typed(other) && other != r && MessageOf(other) == MessageOf(r)
  {
    hide MessageOf;
    if NUL in r.hotkey {
      var k :| 0 <= k < |r.hotkey| && r.hotkey[k] == NUL;
      var hotkey, instance := r.hotkey[..k], r.hotkey[k + 1..] + [NUL] + r.instance;
      assert hotkey + [NUL] + instance == r.hotkey + [NUL] + r.instance;
      MovedMessage(r, hotkey, instance);
      other := Moved(r, hotkey, instance);
    } else {
      var k :| 0 <= k < |r.instance| && r.instance[k] == NUL;
      var hotkey, instance := r.hotkey + [NUL] + r.instance[..k], r.instance[k + 1..];
      assert hotkey + [NUL] + instance == r.hotkey + [NUL] + r.instance;
      MovedMessage(r, hotkey, instance);
      other := Moved(r, hotkey, instance);
      assert |other.hotkey| > |r.hotkey|;
    }
  }

  /** The builders check no field for NUL. A message they build belongs to one request alone, of
      any action, exactly when neither its hotkey nor its instance has a NUL. */
  lemma UnambiguousIffNulFree(r: Request)
    requires Typed(r) && MessageOf(r).Some?
    ensures (forall other | Typed(other) && MessageOf(other) == MessageOf(r) :: other == r)
            <==> NUL !in r.hotkey && NUL !in r.instance
  {
    hide MessageOf, Typed;
    if NUL !in r.hotkey && NUL !in r.instance {
      forall other | Typed(other) && MessageOf(other) == MessageOf(r) ensures other == r {
        CleanMessageUnique(r, other);
      }
    } else {
      var other := NulMovesBoundary(r);
    }
  }

  /** Two validated requests have the same message only when they agree on the action and on
      every signed field; in particular messages of different actions never coincide. */
  lemma MessagesUnambiguous(a: Request, b: Request)
    requires RequestOk(a) && RequestOk(b)
    ensures MessageOf(a) == MessageOf(b) <==> a == b
  {
    hide MessageOf, Typed;
    MessageDefined(a);
    UnambiguousIffNulFree(a);
  }

  // ---------------------------------------------------------------- what a recipient reads

  predicate IsText(t: Text, s: string) {
    |t| == |s| && forall i | 0 <= i < |s| :: t[i] == s[i] as int
  }

  function SignedDomain(r: Request): string {
    match r
    case Next(_, _, _, _, _) => "dittobench-coding-ticket-claim-next:v2"
    case Act(Start, _, _, _, _, _, _, _) => "dittobench-coding-ticket-claim-start:v2"
    case Act(Heartbeat, _, _, _, _, _, _, _) => "dittobench-coding-ticket-claim-heartbeat:v2"
  }

  lemma DomainSigned(r: Request)
    ensures Domain(r) == SignedDomain(r)
  {
  }

  /** The bytes of a validated request are UTF-8 text that splits at NUL into its fields, in this
      order: the domain of its action, the hotkey, the instance, the run, for start and heartbeat
      the ticket and the generation, the nonce and the time. */
  lemma MessageReads(r: Request)
    requires RequestOk(r)
    ensures MessageOf(r).Some? && Utf8.Decode(MessageOf(r).value).Some?
    ensures var f := SplitAtNul(Utf8.Decode(MessageOf(r).value).value);
            var n := if r.Next? then 6 else 8;
            && |f| == n && IsText(f[0], SignedDomain(r))
            && f[1] == r.hotkey && f[2] == r.instance && f[3] == UuidText(r.run)
            && (r.Act? ==> f[4] == UuidText(r.ticket) && f[5] == Decimal(r.generation))
            && f[n - 2] == UuidText(r.nonce) && f[n - 1] == UtcText(r.at)
  {
    hide MessageOf, FieldsOf, Join, Domain, RequestOk, UuidText, UtcText, Decimal, Utf8.Encode, Utf8.Decode;
    hide SplitAtNul, SignedDomain;
    MessageDefined(r);
    Utf8.DecodeEncode(Join(FieldsOf(r)));
    FieldsAreFieldText(r);
    FieldPositions(r);
    SplitJoin(FieldsOf(r));
    DomainsAscii(r);
    DomainSigned(r);
  }

  lemma JoinThree(a: Text, b: Text, c: Text, tail: seq<Text>)
    requires tail != []
    ensures Join([a, b, c] + tail) == a + ([NUL] + b + [NUL] + c) + ([NUL] + Join(tail))
  {
    var all := [a, b, c] + tail;
    assert all[1..] == [b, c] + tail && ([b, c] + tail)[1..] == [c] + tail && ([c] + tail)[1..] == tail;
    assert Join([c] + tail) == c + [NUL] + Join(tail);
    assert Join([b, c] + tail) == b + [NUL] + Join([c] + tail);
    assert Join(all) == a + [NUL] + Join([b, c] + tail);
  }
}
