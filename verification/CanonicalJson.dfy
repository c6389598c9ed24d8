/**
 The canonical printer behind the idempotency fingerprints: object members sorted by key, no
 white space, strings quoted as JSON.stringify does. A parser for what it prints shows that the
 printed text determines the value up to the order of object members.
 */
module CanonicalJson {
  import opened Wrappers
  import opened Text
  import Decimal

  /** Integers that a double holds exactly. */
  type SafeInt = n: int | -0x1F_FFFF_FFFF_FFFF <= n <= 0x1F_FFFF_FFFF_FFFF

  datatype Member<+T> = Member(key: Text, value: T)

  type Members<T> = seq<Member<T>>

  datatype Json =
    | Null
    | Bool(b: bool)
    | Num(n: SafeInt)
    | Str(s: Text)
    | Arr(items: seq<Json>)
    | Obj(members: Members<Json>)

  const NULL: Text := [110, 117, 108, 108]
  const TRUE: Text := [116, 114, 117, 101]
  const FALSE: Text := [102, 97, 108, 115, 101]
  const QUOTE: Unit := 34
  const COMMA: Unit := 44
  const MINUS: Unit := 45
  const COLON: Unit := 58
  const OPEN_BRACKET: Unit := 91
  const BACKSLASH: Unit := 92
  const CLOSE_BRACKET: Unit := 93
  const OPEN_BRACE: Unit := 123
  const CLOSE_BRACE: Unit := 125

  // ---------------------------------------------------------------- strings

  predicate IsHigh(u: Unit) { 0xD800 <= u < 0xDC00 }
  predicate IsLow(u: Unit) { 0xDC00 <= u < 0xE000 }

  /** A hexadecimal digit in lower case. */
  function HexDigit(d: int): Unit
    requires 0 <= d < 16
  {
    if d < 10 then 48 + d else 87 + d
  }

  function HexValue(u: Unit): Option<int> {
    if 48 <= u <= 57 then Some(u - 48) else if 97 <= u <= 102 then Some(u as int - 87) else None
  }

  function UnicodeEscape(u: Unit): Text {
    [BACKSLASH, 117, HexDigit(u / 0x1000), HexDigit(u / 0x100 % 16), HexDigit(u / 16 % 16), HexDigit(u % 16)]
  }

  function QuoteUnit(u: Unit): Text {
    if u == QUOTE || u == BACKSLASH then [BACKSLASH, u]
    else if u == 8 then [BACKSLASH, 98]
    else if u == 9 then [BACKSLASH, 116]
    else if u == 10 then [BACKSLASH, 110]
    else if u == 12 then [BACKSLASH, 102]
    else if u == 13 then [BACKSLASH, 114]
    else if u < 32 || IsHigh(u) || IsLow(u) then UnicodeEscape(u)
    else [u]
  }

  /** The inside of a quoted string: surrogate pairs are kept, lone surrogates are escaped. */
  function QuoteBody(s: Text): Text {
    if s == [] then []
    else if |s| >= 2 && IsHigh(s[0]) && IsLow(s[1]) then [s[0], s[1]] + QuoteBody(s[2..])
    else QuoteUnit(s[0]) + QuoteBody(s[1..])
  }

  function Quote(s: Text): Text {
    [QUOTE] + QuoteBody(s) + [QUOTE]
  }

  /** One unit of a quoted string, and what follows it. */
  function UnquoteUnit(t: Text): (r: Option<(Unit, Text)>)
    ensures r.Some? ==> |r.value.1| < |t|
  {
    if t == [] || t[0] == QUOTE then None
    else if t[0] != BACKSLASH then Some((t[0], t[1..]))
    else if |t| < 2 then None
    else if t[1] == QUOTE || t[1] == BACKSLASH then Some((t[1], t[2..]))
    else if t[1] == 98 then Some((8, t[2..]))
    else if t[1] == 116 then Some((9, t[2..]))
    else if t[1] == 110 then Some((10, t[2..]))
    else if t[1] == 102 then Some((12, t[2..]))
    else if t[1] == 114 then Some((13, t[2..]))
    else if t[1] != 117 || |t| < 6 then None
    else
      match (HexValue(t[2]), HexValue(t[3]), HexValue(t[4]), HexValue(t[5]))
      case (Some(a), Some(b), Some(c), Some(d)) => Some((0x1000 * a + 0x100 * b + 16 * c + d, t[6..]))
      case _ => None
  }

  /** Reads up to and including the closing quotation mark. */
  function UnquoteBody(t: Text): (r: Option<(Text, Text)>)
    ensures r.Some? ==> |r.value.1| < |t|
    decreases |t|
  {
    if t != [] && t[0] == QUOTE then Some(([], t[1..]))
    else
      match UnquoteUnit(t)
      case None => None
      case Some((u, rest)) =>
        match UnquoteBody(rest)
        case None => None
        case Some((s, after)) => Some(([u] + s, after))
  }

  lemma HexRoundTrip(u: Unit)
    ensures var t := UnicodeEscape(u);
            HexValue(t[2]) == Some(u / 0x1000) && HexValue(t[3]) == Some(u / 0x100 % 16)
            && HexValue(t[4]) == Some(u / 16 % 16) && HexValue(t[5]) == Some(u % 16)
            && 0x1000 * (u / 0x1000) + 0x100 * (u / 0x100 % 16) + 16 * (u / 16 % 16) + u % 16 == u
  {
    var (a, b, c) := (u / 0x1000, u / 0x100, u / 16);
    assert c == 16 * b + c % 16 && b == 16 * a + b % 16;
    HexDigitReadsBack(a);
    HexDigitReadsBack(b % 16);
    HexDigitReadsBack(c % 16);
    HexDigitReadsBack(u % 16);
  }

  lemma HexDigitReadsBack(d: int)
    requires 0 <= d < 16
    ensures HexValue(HexDigit(d)) == Some(d)
  {
  }

  lemma QuotedUnitReadsBack(u: Unit, rest: Text)
    ensures UnquoteUnit(QuoteUnit(u) + rest) == Some((u, rest))
  {
    var t := QuoteUnit(u) + rest;
    HexRoundTrip(u);
    assert t[|QuoteUnit(u)|..] == rest;
  }

  lemma UnquoteStep(u: Unit, t: Text, tail: Text, s: Text, rest: Text)
    requires t != [] && t[0] != QUOTE && UnquoteUnit(t) == Some((u, tail))
    requires UnquoteBody(tail) == Some((s, rest))
    ensures UnquoteBody(t) == Some(([u] + s, rest))
  {
  }

  lemma UnquotePair(s: Text, body: Text, rest: Text)
    requires |s| >= 2 && IsHigh(s[0]) && IsLow(s[1])
    requires UnquoteBody(body + [QUOTE] + rest) == Some((s[2..], rest))
    ensures UnquoteBody([s[0], s[1]] + body + [QUOTE] + rest) == Some((s, rest))
  {
    hide UnquoteBody;
    var tail := body + [QUOTE] + rest;
    var second := [s[1]] + tail;
    var t := [s[0]] + second;
    assert second[1..] == tail && t[1..] == second;
    UnquoteStep(s[1], second, tail, s[2..], rest);
    UnquoteStep(s[0], t, second, [s[1]] + s[2..], rest);
    assert [s[0], s[1]] + body + [QUOTE] + rest == t;
    assert s == [s[0]] + ([s[1]] + s[2..]);
  }

  lemma UnquoteSingle(s: Text, body: Text, rest: Text)
    requires s != [] && UnquoteBody(body + [QUOTE] + rest) == Some((s[1..], rest))
    ensures UnquoteBody(QuoteUnit(s[0]) + body + [QUOTE] + rest) == Some((s, rest))
  {
    hide UnquoteBody;
    var tail := body + [QUOTE] + rest;
    var t := QuoteUnit(s[0]) + tail;
    QuotedUnitReadsBack(s[0], tail);
    UnquoteStep(s[0], t, tail, s[1..], rest);
    assert QuoteUnit(s[0]) + body + [QUOTE] + rest == t;
    assert s == [s[0]] + s[1..];
  }

  lemma {:induction false} QuotedBodyReadsBack(s: Text, rest: Text)
    ensures UnquoteBody(QuoteBody(s) + [QUOTE] + rest) == Some((s, rest))
    decreases |s|
  {
    if s == [] {
      assert ([QUOTE] + rest)[1..] == rest;
      assert QuoteBody(s) + [QUOTE] + rest == [QUOTE] + rest;
    } else if |s| >= 2 && IsHigh(s[0]) && IsLow(s[1]) {
      QuotedBodyReadsBack(s[2..], rest);
      UnquotePair(s, QuoteBody(s[2..]), rest);
    } else {
      QuotedBodyReadsBack(s[1..], rest);
      UnquoteSingle(s, QuoteBody(s[1..]), rest);
    }
  }

  /** A quoted string reads back from the front of any text, and the rest is intact. */
  lemma QuotedReadsBack(s: Text, rest: Text)
    ensures var t := Quote(s) + rest; t[0] == QUOTE && UnquoteBody(t[1..]) == Some((s, rest))
  {
    var quoted := QuoteBody(s) + [QUOTE] + rest;
    QuotedBodyReadsBack(s, rest);
    assert Quote(s) + rest == [QUOTE] + quoted;
    assert ([QUOTE] + quoted)[1..] == quoted;
  }

  // ---------------------------------------------------------------- printing

  function Insert<T>(m: Member<T>, ms: Members<T>): Members<T> {
    if ms == [] || !Less(ms[0].key, m.key) then [m] + ms else [ms[0]] + Insert(m, ms[1..])
  }

  /** The stable sort of object members by key. */
  function SortMembers<T>(ms: Members<T>): Members<T> {
    if ms == [] then [] else Insert(ms[0], SortMembers(ms[1..]))
  }

  /** `join(",")`. */
  function Join(parts: seq<Text>): Text {
    if parts == [] then [] else if |parts| == 1 then parts[0] else parts[0] + [COMMA] + Join(parts[1..])
  }

  function MemberText(m: Member<Text>): Text {
    Quote(m.key) + [COLON] + m.value
  }

  function MemberTexts(ms: Members<Text>): seq<Text> {
    seq(|ms|, i requires 0 <= i < |ms| => MemberText(ms[i]))
  }

  function PrintInt(n: int): Text {
    if n < 0 then [MINUS] + Decimal.Print(-n) else Decimal.Print(n)
  }

  function Canonicalize(v: Json): Text {
    match v
    case Null => NULL
    case Bool(b) => if b then TRUE else FALSE
    case Num(n) => PrintInt(n)
    case Str(s) => Quote(s)
    case Arr(items) => [OPEN_BRACKET] + Join(CanonicalItems(items)) + [CLOSE_BRACKET]
    case Obj(ms) =>
      [OPEN_BRACE] + Join(MemberTexts(SortMembers(CanonicalMembers(ms)))) + [CLOSE_BRACE]
  }

  function CanonicalItems(items: seq<Json>): (parts: seq<Text>)
    ensures |parts| == |items|
  {
    if items == [] then [] else [Canonicalize(items[0])] + CanonicalItems(items[1..])
  }

  function CanonicalMembers(ms: Members<Json>): (parts: Members<Text>)
    ensures |parts| == |ms|
  {
    if ms == [] then [] else [Member(ms[0].key, Canonicalize(ms[0].value))] + CanonicalMembers(ms[1..])
  }

  /** The value with the members of every object, at every depth, sorted by key. */
  function Norm(v: Json): Json {
    match v
    case Arr(items) => Arr(NormItems(items))
    case Obj(ms) => Obj(SortMembers(NormMembers(ms)))
    case _ => v
  }

  function NormItems(items: seq<Json>): (r: seq<Json>)
    ensures |r| == |items| && forall i :: 0 <= i < |items| ==> r[i] == Norm(items[i])
  {
    if items == [] then [] else [Norm(items[0])] + NormItems(items[1..])
  }

  function NormMembers(ms: Members<Json>): (r: Members<Json>)
    ensures |r| == |ms| && forall i :: 0 <= i < |ms| ==> r[i] == Member(ms[i].key, Norm(ms[i].value))
  {
    if ms == [] then [] else [Member(ms[0].key, Norm(ms[0].value))] + NormMembers(ms[1..])
  }

  // ---------------------------------------------------------------- parsing

  /** Reads one value from the front of `t`, and returns it with what follows it. */
  function ParseValue(t: Text): (r: Option<(Json, Text)>)
    ensures r.Some? ==> |r.value.1| < |t|
    decreases |t|, 0
  {
    if t == [] then None
    else if NULL <= t then Some((Null, t[4..]))
    else if TRUE <= t then Some((Bool(true), t[4..]))
    else if FALSE <= t then Some((Bool(false), t[5..]))
    else if t[0] == QUOTE then
      match UnquoteBody(t[1..])
      case None => None
      case Some((s, rest)) => Some((Str(s), rest))
    else if t[0] == OPEN_BRACKET then
      if |t| > 1 && t[1] == CLOSE_BRACKET then Some((Arr([]), t[2..]))
      else
        match ParseItems(t[1..])
        case None => None
        case Some((items, rest)) => Some((Arr(items), rest))
    else if t[0] == OPEN_BRACE then
      if |t| > 1 && t[1] == CLOSE_BRACE then Some((Obj([]), t[2..]))
      else
        match ParseMembers(t[1..])
        case None => None
        case Some((ms, rest)) => Some((Obj(ms), rest))
    else if t[0] == MINUS then ParseInt(t[1..], true)
    else ParseInt(t, false)
  }

  function Signed(negative: bool, magnitude: int): int {
    if negative then -magnitude else magnitude
  }

  function ParseInt(t: Text, negative: bool): (r: Option<(Json, Text)>)
    ensures r.Some? ==> |r.value.1| < |t|
  {
    var n := Decimal.Span(t);
    var magnitude := Decimal.Value(t[..n]);
    var value := Signed(negative, magnitude);
    if n == 0 || !(-0x1F_FFFF_FFFF_FFFF <= value <= 0x1F_FFFF_FFFF_FFFF) then None
    else Some((Num(value), t[n..]))
  }

  /** Reads items separated by commas, up to and including the closing bracket. */
  function ParseItems(t: Text): (r: Option<(seq<Json>, Text)>)
    ensures r.Some? ==> |r.value.1| < |t|
    decreases |t|, 1
  {
    match ParseValue(t)
    case None => None
    case Some((v, rest)) =>
      if rest == [] then None
      else if rest[0] == CLOSE_BRACKET then Some(([v], rest[1..]))
      else if rest[0] != COMMA then None
      else
        match ParseItems(rest[1..])
        case None => None
        case Some((items, after)) => Some(([v] + items, after))
  }

  /** Reads members separated by commas, up to and including the closing brace. */
  function ParseMembers(t: Text): (r: Option<(Members<Json>, Text)>)
    ensures r.Some? ==> |r.value.1| < |t|
    decreases |t|, 1
  {
    match ParseMember(t)
    case None => None
    case Some((m, rest)) =>
      if rest == [] then None
      else if rest[0] == CLOSE_BRACE then Some(([m], rest[1..]))
      else if rest[0] != COMMA then None
      else
        match ParseMembers(rest[1..])
        case None => None
        case Some((ms, after)) => Some(([m] + ms, after))
  }

  function ParseMember(t: Text): (r: Option<(Member<Json>, Text)>)
    ensures r.Some? ==> |r.value.1| < |t|
    decreases |t|, 0
  {
    if t == [] || t[0] != QUOTE then None
    else
      match UnquoteBody(t[1..])
      case None => None
      case Some((key, rest)) =>
        if rest == [] || rest[0] != COLON then None
        else
          match ParseValue(rest[1..])
          case None => None
          case Some((v, after)) => Some((Member(key, v), after))
  }

  // ---------------------------------------------------------------- the parser inverts the printer

  /** `text`, before anything that does not prolong a numeral, parses to `v` and leaves the rest. */
  ghost predicate Inverts(text: Text, v: Json) {
    forall rest: Text {:trigger ParseValue(text + rest)} ::
      Decimal.Delimits(rest) ==> ParseValue(text + rest) == Some((v, rest))
  }

  ghost predicate InvertsAll(parts: seq<Text>, vs: seq<Json>) {
    |parts| == |vs| && forall i :: 0 <= i < |vs| ==> Inverts(parts[i], vs[i])
  }

  ghost predicate InvertsMembers(parts: Members<Text>, ms: Members<Json>) {
    |parts| == |ms| && forall i :: 0 <= i < |ms| ==> parts[i].key == ms[i].key && Inverts(parts[i].value, ms[i].value)
  }

  lemma LiteralsInvert(b: bool)
    ensures Inverts(NULL, Null) && Inverts(if b then TRUE else FALSE, Bool(b))
  {
    forall rest: Text ensures ParseValue(NULL + rest) == Some((Null, rest)) {
      assert (NULL + rest)[4..] == rest;
    }
    var text := if b then TRUE else FALSE;
    forall rest: Text ensures ParseValue(text + rest) == Some((Bool(b), rest)) {
      var t := text + rest;
      assert t[|text|..] == rest && t[0] == text[0] && text <= t;
    }
  }

  lemma ParseIntInverts(n: nat, negative: bool, rest: Text)
    requires n <= 0x1F_FFFF_FFFF_FFFF && Decimal.Delimits(rest)
    ensures ParseInt(Decimal.Print(n) + rest, negative) == Some((Num(Signed(negative, n)), rest))
  {
    Decimal.ReadBack(n, rest);
  }

  lemma ParseNegative(t: Text)
    ensures ParseValue([MINUS] + t) == ParseInt(t, true)
  {
    assert ([MINUS] + t)[1..] == t;
  }

  lemma ParseNatural(t: Text)
    requires t != [] && Decimal.IsDigit(t[0])
    ensures ParseValue(t) == ParseInt(t, false)
  {
  }

  lemma NumberInverts(n: SafeInt)
    ensures Inverts(PrintInt(n), Num(n))
  {
    var magnitude: nat := if n < 0 then -n else n;
    forall rest: Text | Decimal.Delimits(rest) ensures ParseValue(PrintInt(n) + rest) == Some((Num(n), rest)) {
      NumberReadsBack(n, magnitude, rest);
    }
  }

  lemma NumberReadsBack(n: SafeInt, magnitude: nat, rest: Text)
    requires n == Signed(n < 0, magnitude) && Decimal.Delimits(rest)
    ensures ParseValue(PrintInt(n) + rest) == Some((Num(n), rest))
  {
    hide ParseValue, ParseInt;
    var digits := Decimal.Print(magnitude) + rest;
    ParseIntInverts(magnitude, n < 0, rest);
    if n < 0 {
      ParseNegative(digits);
      assert PrintInt(n) + rest == [MINUS] + digits;
    } else {
      ParseNatural(digits);
    }
  }

  lemma StringInverts(s: Text)
    ensures Inverts(Quote(s), Str(s))
  {
    forall rest: Text ensures ParseValue(Quote(s) + rest) == Some((Str(s), rest)) {
      QuotedReadsBack(s, rest);
    }
  }

  lemma {:induction false} ItemsInvert(parts: seq<Text>, vs: seq<Json>, rest: Text)
    requires InvertsAll(parts, vs) && vs != []
    ensures ParseItems(Join(parts) + [CLOSE_BRACKET] + rest) == Some((vs, rest))
    decreases |vs|
  {
    var t := Join(parts) + [CLOSE_BRACKET] + rest;
    JoinStep(parts, [CLOSE_BRACKET], rest);
    if |vs| == 1 {
      assert ([CLOSE_BRACKET] + rest)[1..] == rest;
      assert vs == [vs[0]];
    } else {
      var tail := Join(parts[1..]) + [CLOSE_BRACKET] + rest;
      ItemsInvert(parts[1..], vs[1..], rest);
      assert ([COMMA] + tail)[1..] == tail;
      assert vs == [vs[0]] + vs[1..];
    }
  }

  lemma ParseMemberStep(t: Text, key: Text, value: Text, v: Json, rest: Text)
    requires t != [] && t[0] == QUOTE && UnquoteBody(t[1..]) == Some((key, [COLON] + value))
    requires ParseValue(value) == Some((v, rest))
    ensures ParseMember(t) == Some((Member(key, v), rest))
  {
    assert ([COLON] + value)[1..] == value;
  }

  lemma Regroup(a: Text, b: Text, c: Text, d: Text, e: Text)
    ensures a + b + c + d == a + (b + (c + d))
    ensures a + b + c + d + e == a + (b + (c + d + e))
  {
    assert a + b + c + d == a + (b + (c + d));
  }

  lemma MemberInverts(part: Member<Text>, m: Member<Json>)
    requires part.key == m.key && Inverts(part.value, m.value)
    ensures InvertsMember(MemberText(part), m)
  {
    forall rest: Text | Decimal.Delimits(rest) ensures ParseMember(MemberText(part) + rest) == Some((m, rest)) {
      var after := [COLON] + (part.value + rest);
      QuotedReadsBack(part.key, after);
      Regroup(Quote(part.key), [COLON], part.value, rest, []);
      ParseMemberStep(Quote(part.key) + after, part.key, part.value + rest, m.value, rest);
    }
  }

  /** How a joined list continues after its first part. */
  lemma JoinStep(parts: seq<Text>, close: Text, rest: Text)
    requires parts != []
    ensures |parts| == 1 ==> Join(parts) + close + rest == parts[0] + (close + rest)
    ensures |parts| > 1 ==> Join(parts) + close + rest == parts[0] + ([COMMA] + (Join(parts[1..]) + close + rest))
  {
    if |parts| > 1 {
      Regroup(parts[0], [COMMA], Join(parts[1..]), close, rest);
    }
  }

  ghost predicate InvertsMember(text: Text, m: Member<Json>) {
    forall rest: Text {:trigger ParseMember(text + rest)} ::
      Decimal.Delimits(rest) ==> ParseMember(text + rest) == Some((m, rest))
  }

  lemma ParseMembersStep(t: Text, m: Member<Json>, rest: Text, ms: Members<Json>, after: Text)
    requires ParseMember(t) == Some((m, [COMMA] + rest)) && ParseMembers(rest) == Some((ms, after))
    ensures ParseMembers(t) == Some(([m] + ms, after))
  {
    assert ([COMMA] + rest)[1..] == rest;
  }

  lemma ParseMembersEnd(t: Text, m: Member<Json>, rest: Text)
    requires ParseMember(t) == Some((m, [CLOSE_BRACE] + rest))
    ensures ParseMembers(t) == Some(([m], rest))
  {
    assert ([CLOSE_BRACE] + rest)[1..] == rest;
  }

  lemma {:induction false} MembersInvert(texts: seq<Text>, ms: Members<Json>, rest: Text)
    requires |texts| == |ms| > 0 && forall i :: 0 <= i < |ms| ==> InvertsMember(texts[i], ms[i])
    ensures ParseMembers(Join(texts) + [CLOSE_BRACE] + rest) == Some((ms, rest))
    decreases |ms|
  {
    var t := Join(texts) + [CLOSE_BRACE] + rest;
    JoinStep(texts, [CLOSE_BRACE], rest);
    assert InvertsMember(texts[0], ms[0]);
    if |ms| == 1 {
      assert ParseMember(texts[0] + ([CLOSE_BRACE] + rest)) == Some((ms[0], [CLOSE_BRACE] + rest));
      ParseMembersEnd(t, ms[0], rest);
      assert ms == [ms[0]];
    } else {
      var tail := Join(texts[1..]) + [CLOSE_BRACE] + rest;
      MembersInvert(texts[1..], ms[1..], rest);
      assert ParseMember(texts[0] + ([COMMA] + tail)) == Some((ms[0], [COMMA] + tail));
      ParseMembersStep(t, ms[0], tail, ms[1..], rest);
      assert ms == [ms[0]] + ms[1..];
    }
  }

  lemma {:induction false} InsertKeepsInverts(part: Member<Text>, m: Member<Json>, parts: Members<Text>, ms: Members<Json>)
    requires part.key == m.key && Inverts(part.value, m.value) && InvertsMembers(parts, ms)
    ensures InvertsMembers(Insert(part, parts), Insert(m, ms))
    decreases |ms|
  {
    if ms != [] && Less(ms[0].key, m.key) {
      InsertKeepsInverts(part, m, parts[1..], ms[1..]);
    }
  }

  lemma {:induction false} SortKeepsInverts(parts: Members<Text>, ms: Members<Json>)
    requires InvertsMembers(parts, ms)
    ensures InvertsMembers(SortMembers(parts), SortMembers(ms))
    decreases |ms|
  {
    if ms != [] {
      SortKeepsInverts(parts[1..], ms[1..]);
      InsertKeepsInverts(parts[0], ms[0], SortMembers(parts[1..]), SortMembers(ms[1..]));
    }
  }

  lemma ParseArrayStep(body: Text, vs: seq<Json>, rest: Text)
    requires ParseItems(body) == Some((vs, rest))
    ensures ParseValue([OPEN_BRACKET] + body) == Some((Arr(vs), rest))
  {
    assert ([OPEN_BRACKET] + body)[1..] == body;
    assert body[0] != CLOSE_BRACKET;
  }

  lemma ParseObjectStep(body: Text, ms: Members<Json>, rest: Text)
    requires ParseMembers(body) == Some((ms, rest))
    ensures ParseValue([OPEN_BRACE] + body) == Some((Obj(ms), rest))
  {
    assert ([OPEN_BRACE] + body)[1..] == body;
  }

  lemma ParseEmpty(rest: Text)
    ensures ParseValue([OPEN_BRACKET] + ([CLOSE_BRACKET] + rest)) == Some((Arr([]), rest))
    ensures ParseValue([OPEN_BRACE] + ([CLOSE_BRACE] + rest)) == Some((Obj([]), rest))
  {
    var t := [OPEN_BRACKET] + ([CLOSE_BRACKET] + rest);
    assert t[0] == OPEN_BRACKET && t[1] == CLOSE_BRACKET && t[2..] == rest;
    assert ([OPEN_BRACE] + ([CLOSE_BRACE] + rest))[2..] == rest;
  }

  lemma Enclosed(open: Unit, body: Text, close: Unit, rest: Text)
    ensures [open] + body + [close] + rest == [open] + (body + [close] + rest)
    ensures body == [] ==> [open] + body + [close] + rest == [open] + ([close] + rest)
  {
  }

  lemma {:induction false} ArrayInverts(parts: seq<Text>, vs: seq<Json>)
    requires InvertsAll(parts, vs)
    ensures Inverts([OPEN_BRACKET] + Join(parts) + [CLOSE_BRACKET], Arr(vs))
  {
    var body := Join(parts);
    forall rest: Text
      ensures ParseValue([OPEN_BRACKET] + body + [CLOSE_BRACKET] + rest) == Some((Arr(vs), rest))
    {
      Enclosed(OPEN_BRACKET, body, CLOSE_BRACKET, rest);
      if vs == [] {
        assert parts == [];
        ParseEmpty(rest);
      } else {
        ItemsInvert(parts, vs, rest);
        ParseArrayStep(body + [CLOSE_BRACKET] + rest, vs, rest);
      }
    }
  }

  lemma {:induction false} ObjectInverts(parts: Members<Text>, ms: Members<Json>)
    requires InvertsMembers(parts, ms)
    ensures Inverts([OPEN_BRACE] + Join(MemberTexts(parts)) + [CLOSE_BRACE], Obj(ms))
  {
    var texts := MemberTexts(parts);
    var body := Join(texts);
    forall i | 0 <= i < |ms| ensures InvertsMember(texts[i], ms[i]) {
      MemberInverts(parts[i], ms[i]);
    }
    forall rest: Text
      ensures ParseValue([OPEN_BRACE] + body + [CLOSE_BRACE] + rest) == Some((Obj(ms), rest))
    {
      Enclosed(OPEN_BRACE, body, CLOSE_BRACE, rest);
      if ms == [] {
        assert texts == [];
        ParseEmpty(rest);
      } else {
        MembersInvert(texts, ms, rest);
        ParseObjectStep(body + [CLOSE_BRACE] + rest, ms, rest);
      }
    }
  }

  /** Parsing what was printed, before any delimited suffix, gives the value with its members sorted. */
  lemma {:induction false} CanonicalTextInverts(v: Json)
    ensures Inverts(Canonicalize(v), Norm(v))
  {
    match v
    case Null => LiteralsInvert(true);
    case Bool(b) => LiteralsInvert(b);
    case Num(n) => NumberInverts(n);
    case Str(s) => StringInverts(s);
    case Arr(items) =>
      CanonicalItemsInvert(items);
      ArrayInverts(CanonicalItems(items), NormItems(items));
    case Obj(ms) =>
      CanonicalMembersInvert(ms);
      SortKeepsInverts(CanonicalMembers(ms), NormMembers(ms));
      ObjectInverts(SortMembers(CanonicalMembers(ms)), SortMembers(NormMembers(ms)));
  }

  lemma {:induction false} CanonicalItemsInvert(items: seq<Json>)
    ensures InvertsAll(CanonicalItems(items), NormItems(items))
  {
    if items != [] {
      CanonicalTextInverts(items[0]);
      CanonicalItemsInvert(items[1..]);
    }
  }

  lemma {:induction false} CanonicalMembersInvert(ms: Members<Json>)
    ensures InvertsMembers(CanonicalMembers(ms), NormMembers(ms))
  {
    if ms != [] {
      CanonicalTextInverts(ms[0].value);
      CanonicalMembersInvert(ms[1..]);
    }
  }

  // ---------------------------------------------------------------- a normal form

  function Keys<T>(ms: Members<T>): set<Text> {
    set i | 0 <= i < |ms| :: ms[i].key
  }

  ghost predicate DistinctKeys<T>(ms: Members<T>) {
    forall i, j :: 0 <= i < j < |ms| ==> ms[i].key != ms[j].key
  }

  /** No object has two members of one name, at any depth. */
  ghost predicate WellFormed(v: Json) {
    match v
    case Arr(items) => forall i :: 0 <= i < |items| ==> WellFormed(items[i])
    case Obj(ms) => DistinctKeys(ms) && forall i :: 0 <= i < |ms| ==> WellFormed(ms[i].value)
    case _ => true
  }

  /** Equal up to the order of object members. */
  ghost predicate Equivalent(a: Json, b: Json) {
    match (a, b)
    case (Arr(xs), Arr(ys)) => |xs| == |ys| && forall i :: 0 <= i < |xs| ==> Equivalent(xs[i], ys[i])
    case (Obj(xs), Obj(ys)) =>
      Keys(xs) == Keys(ys)
      && forall i, j :: 0 <= i < |xs| && 0 <= j < |ys| && xs[i].key == ys[j].key ==> Equivalent(xs[i].value, ys[j].value)
    case _ => a == b
  }

  ghost predicate SortedByKey<T>(ms: Members<T>) {
    forall i, j :: 0 <= i < j < |ms| ==> Less(ms[i].key, ms[j].key)
  }

  ghost function Elems<T>(ms: Members<T>): set<Member<T>> {
    set i | 0 <= i < |ms| :: ms[i]
  }

  lemma ElemsOfRest<T>(ms: Members<T>)
    requires ms != []
    ensures Elems(ms) == {ms[0]} + Elems(ms[1..])
  {
    forall x | x in Elems(ms) ensures x in {ms[0]} + Elems(ms[1..]) {
      var i :| 0 <= i < |ms| && ms[i] == x;
      if i > 0 {
        assert ms[1..][i - 1] == x;
      }
    }
  }

  lemma NoElems<T>(ms: Members<T>)
    ensures Elems(ms) == {} <==> ms == []
  {
    if ms != [] {
      assert ms[0] in Elems(ms);
    }
  }

  lemma {:induction false} InsertElems<T>(m: Member<T>, ms: Members<T>)
    ensures Elems(Insert(m, ms)) == {m} + Elems(ms)
  {
    var r := Insert(m, ms);
    ElemsOfRest(r);
    if ms != [] {
      ElemsOfRest(ms);
      if Less(ms[0].key, m.key) {
        InsertElems(m, ms[1..]);
        assert r[1..] == Insert(m, ms[1..]);
      } else {
        assert r[1..] == ms;
      }
    }
  }

  lemma {:induction false} InsertSorts<T>(m: Member<T>, ms: Members<T>)
    requires SortedByKey(ms) && forall x :: x in Elems(ms) ==> x.key != m.key
    ensures SortedByKey(Insert(m, ms))
  {
    var r := Insert(m, ms);
    if ms != [] {
      ElemsOfRest(ms);
      if Less(ms[0].key, m.key) {
        InsertSorts(m, ms[1..]);
        InsertElems(m, ms[1..]);
        assert r[1..] == Insert(m, ms[1..]);
        forall j | 0 < j < |r| ensures Less(ms[0].key, r[j].key) {
          assert r[j] == r[1..][j - 1] && r[j] in Elems(r[1..]);
        }
      } else {
        assert ms[0] in Elems(ms);
        LessIsStrictTotal(ms[0].key, m.key);
        assert r[1..] == ms;
        LessThanFirst(m, ms);
      }
      SortedFromRest(r);
    }
  }

  lemma LessThanFirst<T>(m: Member<T>, ms: Members<T>)
    requires SortedByKey(ms) && ms != [] && Less(m.key, ms[0].key)
    ensures forall i :: 0 <= i < |ms| ==> Less(m.key, ms[i].key)
  {
    forall i | 0 < i < |ms| ensures Less(m.key, ms[i].key) {
      LessIsTransitive(m.key, ms[0].key, ms[i].key);
    }
  }

  lemma SortedFromRest<T>(r: Members<T>)
    requires r != [] && SortedByKey(r[1..])
    requires forall j :: 0 < j < |r| ==> Less(r[0].key, r[j].key)
    ensures SortedByKey(r)
  {
    forall i, j | 0 < i < j < |r| ensures Less(r[i].key, r[j].key) {
      assert r[i] == r[1..][i - 1] && r[j] == r[1..][j - 1];
    }
  }

  lemma {:induction false} SortSorts<T>(ms: Members<T>)
    requires DistinctKeys(ms)
    ensures SortedByKey(SortMembers(ms))
    ensures Elems(SortMembers(ms)) == Elems(ms)
  {
    if ms != [] {
      SortSorts(ms[1..]);
      ElemsOfRest(ms);
      forall x | x in Elems(ms[1..]) ensures x.key != ms[0].key {
        var k :| 0 <= k < |ms[1..]| && ms[1..][k] == x;
        assert x == ms[k + 1];
      }
      InsertSorts(ms[0], SortMembers(ms[1..]));
      InsertElems(ms[0], SortMembers(ms[1..]));
    }
  }

  /** Two strictly sorted lists of the same members are the same list. */
  lemma {:induction false} SortedListIsUnique<T>(s: Members<T>, t: Members<T>)
    requires SortedByKey(s) && SortedByKey(t) && Elems(s) == Elems(t)
    ensures s == t
  {
    if s == [] || t == [] {
      NoElems(s);
      NoElems(t);
    } else {
      assert s[0] in Elems(s) && t[0] in Elems(t);
      FirstIsLeast(s, t[0]);
      FirstIsLeast(t, s[0]);
      LessIsStrictTotal(s[0].key, t[0].key);
      ElemsOfRest(s);
      ElemsOfRest(t);
      FirstIsNotInRest(s);
      FirstIsNotInRest(t);
      SortedListIsUnique(s[1..], t[1..]);
      assert s == [s[0]] + s[1..] && t == [t[0]] + t[1..];
    }
  }

  lemma FirstIsLeast<T>(s: Members<T>, x: Member<T>)
    requires SortedByKey(s) && x in Elems(s)
    ensures x == s[0] || Less(s[0].key, x.key)
  {
  }

  lemma FirstIsNotInRest<T>(s: Members<T>)
    requires SortedByKey(s) && s != []
    ensures s[0] !in Elems(s[1..])
  {
    LessIsStrictTotal(s[0].key, s[0].key);
  }

  lemma {:induction false} CanonicalMembersAt(ms: Members<Json>)
    ensures forall i :: 0 <= i < |ms| ==> CanonicalMembers(ms)[i] == Member(ms[i].key, Canonicalize(ms[i].value))
  {
    if ms != [] {
      CanonicalMembersAt(ms[1..]);
    }
  }

  lemma {:induction false} CanonicalItemsAt(items: seq<Json>)
    ensures forall i :: 0 <= i < |items| ==> CanonicalItems(items)[i] == Canonicalize(items[i])
  {
    if items != [] {
      CanonicalItemsAt(items[1..]);
    }
  }

  lemma {:induction false} EquivalentPrintAlike(a: Json, b: Json)
    requires WellFormed(a) && WellFormed(b) && Equivalent(a, b)
    ensures Canonicalize(a) == Canonicalize(b)
    decreases a
  {
    match (a, b)
    case (Arr(xs), Arr(ys)) =>
      CanonicalItemsAt(xs);
      CanonicalItemsAt(ys);
      forall i | 0 <= i < |xs| ensures Canonicalize(xs[i]) == Canonicalize(ys[i]) {
        EquivalentPrintAlike(xs[i], ys[i]);
      }
      assert CanonicalItems(xs) == CanonicalItems(ys);
    case (Obj(xs), Obj(ys)) =>
      forall i, j | 0 <= i < |xs| && 0 <= j < |ys| && xs[i].key == ys[j].key
        ensures Canonicalize(xs[i].value) == Canonicalize(ys[j].value)
      {
        EquivalentPrintAlike(xs[i].value, ys[j].value);
      }
      SameCanonicalMembers(xs, ys);
    case _ =>
  }

  lemma SameCanonicalMembers(xs: Members<Json>, ys: Members<Json>)
    requires DistinctKeys(xs) && DistinctKeys(ys) && Keys(xs) == Keys(ys)
    requires forall i, j :: 0 <= i < |xs| && 0 <= j < |ys| && xs[i].key == ys[j].key
              ==> Canonicalize(xs[i].value) == Canonicalize(ys[j].value)
    ensures SortMembers(CanonicalMembers(xs)) == SortMembers(CanonicalMembers(ys))
  {
    var cx, cy := CanonicalMembers(xs), CanonicalMembers(ys);
    CanonicalMembersAt(xs);
    CanonicalMembersAt(ys);
    forall i | 0 <= i < |xs| ensures cx[i] in Elems(cy) {
      assert xs[i].key in Keys(ys);
      var j :| 0 <= j < |ys| && ys[j].key == xs[i].key;
      assert cx[i] == cy[j];
    }
    forall j | 0 <= j < |ys| ensures cy[j] in Elems(cx) {
      assert ys[j].key in Keys(xs);
      var i :| 0 <= i < |xs| && xs[i].key == ys[j].key;
      assert cx[i] == cy[j];
    }
    SortSorts(cx);
    SortSorts(cy);
    SortedListIsUnique(SortMembers(cx), SortMembers(cy));
  }

  lemma {:induction false} SameNormEquivalent(a: Json, b: Json)
    requires WellFormed(a) && WellFormed(b) && Norm(a) == Norm(b)
    ensures Equivalent(a, b)
    decreases a
  {
    match (a, b)
    case (Arr(xs), Arr(ys)) =>
      forall i | 0 <= i < |xs| ensures Equivalent(xs[i], ys[i]) {
        assert NormItems(xs)[i] == NormItems(ys)[i];
        SameNormEquivalent(xs[i], ys[i]);
      }
    case (Obj(xs), Obj(ys)) =>
      SortSorts(NormMembers(xs));
      SortSorts(NormMembers(ys));
      SameElemsMatch(NormMembers(xs), NormMembers(ys));
      SameKeys(xs, NormMembers(xs));
      SameKeys(ys, NormMembers(ys));
      forall i, j | 0 <= i < |xs| && 0 <= j < |ys| && xs[i].key == ys[j].key
        ensures Equivalent(xs[i].value, ys[j].value)
      {
        assert NormMembers(xs)[i].value == NormMembers(ys)[j].value;
        SameNormEquivalent(xs[i].value, ys[j].value);
      }
    case _ =>
  }

  lemma SameKeys<S, T>(xs: Members<S>, ys: Members<T>)
    requires |xs| == |ys| && forall i :: 0 <= i < |xs| ==> xs[i].key == ys[i].key
    ensures Keys(xs) == Keys(ys)
  {
    forall k | k in Keys(xs) ensures k in Keys(ys) {
      var i :| 0 <= i < |xs| && xs[i].key == k;
      assert ys[i].key == k;
    }
    forall k | k in Keys(ys) ensures k in Keys(xs) {
      var i :| 0 <= i < |ys| && ys[i].key == k;
      assert xs[i].key == k;
    }
  }

  lemma SameElemsMatch<T>(xs: Members<T>, ys: Members<T>)
    requires DistinctKeys(ys) && Elems(xs) == Elems(ys)
    ensures Keys(xs) == Keys(ys)
    ensures forall i, j :: 0 <= i < |xs| && 0 <= j < |ys| && xs[i].key == ys[j].key ==> xs[i].value == ys[j].value
  {
    forall i | 0 <= i < |xs| ensures exists j :: 0 <= j < |ys| && ys[j] == xs[i] {
      assert xs[i] in Elems(ys);
    }
    forall j | 0 <= j < |ys| ensures ys[j].key in Keys(xs) {
      assert ys[j] in Elems(xs);
      var i :| 0 <= i < |xs| && xs[i] == ys[j];
      assert xs[i].key == ys[j].key;
    }
  }

  /** Two values print alike exactly when they are equal up to the order of object members. */
  lemma CanonicalTextIsNormalForm(a: Json, b: Json)
    requires WellFormed(a) && WellFormed(b)
    ensures Canonicalize(a) == Canonicalize(b) <==> Equivalent(a, b)
  {
    if Canonicalize(a) == Canonicalize(b) {
      CanonicalTextInverts(a);
      CanonicalTextInverts(b);
      assert ParseValue(Canonicalize(a) + []) == Some((Norm(a), []));
      assert ParseValue(Canonicalize(b) + []) == Some((Norm(b), []));
      SameNormEquivalent(a, b);
    }
    if Equivalent(a, b) {
      EquivalentPrintAlike(a, b);
    }
  }
}
