/** Metadata files: JSON values written over a file from its start, without truncation.

    Strings are byte sequences as in Go.  The encoder escapes what Go's encoder escapes and
    replaces each byte that is not valid UTF-8 by U+FFFD; the decoder reads the first value
    of the file (RFC 8259) and ignores whatever follows it. */
module Metadata {
  import opened Wrappers

  type Byte = b: int | 0 <= b < 256
  type Bytes = seq<Byte>

  const QUOTE: Byte := 34
  const BACKSLASH: Byte := 92
  const NEWLINE: Byte := 10

  /******* UTF-8 *******/

  predicate Continuation(b: Byte) {
    0x80 <= b < 0xC0
  }

  /** The length of the character a string starts with; 0 if there is none that is valid. */
  function RuneLen(s: Bytes): (n: nat)
    ensures n <= |s| && n <= 4
  {
    if s == [] then 0
    else if s[0] < 0x80 then 1
    else if 0xC2 <= s[0] < 0xE0 then
      (if |s| >= 2 && Continuation(s[1]) then 2 else 0)
    else if 0xE0 <= s[0] < 0xF0 then
      (if |s| >= 3 && Continuation(s[1]) && Continuation(s[2])
          && (s[0] == 0xE0 ==> s[1] >= 0xA0) && (s[0] == 0xED ==> s[1] < 0xA0) then 3 else 0)
    else if 0xF0 <= s[0] < 0xF5 then
      (if |s| >= 4 && Continuation(s[1]) && Continuation(s[2]) && Continuation(s[3])
          && (s[0] == 0xF0 ==> s[1] >= 0x90) && (s[0] == 0xF4 ==> s[1] < 0x90) then 4 else 0)
    else 0
  }

  /** How many bytes the encoder takes at a time: a character, or one invalid byte. */
  function UnitLen(s: Bytes): nat
    requires s != []
  {
    if RuneLen(s) == 0 then 1 else RuneLen(s)
  }

  ghost predicate Valid(s: Bytes) {
    s == [] || (RuneLen(s) > 0 && Valid(s[RuneLen(s)..]))
  }

  const REPLACEMENT: Bytes := [0xEF, 0xBF, 0xBD]

  function CleanUnit(s: Bytes): Bytes
    requires s != []
  {
    if RuneLen(s) == 0 then REPLACEMENT else s[..RuneLen(s)]
  }

  /** A string with every invalid byte replaced by U+FFFD. */
  function Sanitize(s: Bytes): Bytes {
    if s == [] then [] else CleanUnit(s) + Sanitize(s[UnitLen(s)..])
  }

  /** UTF-8 of a character below U+10000. */
  function Utf8(r: nat): Bytes
    requires r < 0x10000
  {
    if r < 0x80 then [r]
    else if r < 0x800 then [0xC0 + r / 64, 0x80 + r % 64]
    else [0xE0 + r / 4096, 0x80 + r / 64 % 64, 0x80 + r % 64]
  }

  /******* Strings *******/

  function HexDigit(n: nat): Byte
    requires n < 16
  {
    if n < 10 then 48 + n else 87 + n
  }

  function HexValue(b: Byte): Option<nat> {
    if 48 <= b < 58 then Some(b - 48)
    else if 97 <= b < 103 then Some(b - 87)
    else if 65 <= b < 71 then Some(b - 55)
    else None
  }

  /** An ASCII byte as the encoder writes it; `<`, `>` and `&` are escaped for HTML. */
  function EscapeAscii(b: Byte): Bytes
    requires b < 0x80
  {
    if b == QUOTE || b == BACKSLASH then [BACKSLASH, b]
    else if b == 10 then [BACKSLASH, 110]
    else if b == 13 then [BACKSLASH, 114]
    else if b == 9 then [BACKSLASH, 116]
    else if b < 32 || b == 60 || b == 62 || b == 38 then
      [BACKSLASH, 117, 48, 48, HexDigit(b / 16), HexDigit(b % 16)]
    else [b]
  }

  function EncodeUnit(s: Bytes): Bytes
    requires s != []
  {
    if s[0] < 0x80 then EscapeAscii(s[0])
    else if RuneLen(s) == 0 then [BACKSLASH, 117, 102, 102, 102, 100]
    else if s[..RuneLen(s)] == [0xE2, 0x80, 0xA8] then [BACKSLASH, 117, 50, 48, 50, 56]
    else if s[..RuneLen(s)] == [0xE2, 0x80, 0xA9] then [BACKSLASH, 117, 50, 48, 50, 57]
    else s[..RuneLen(s)]
  }

  function EncodeChars(s: Bytes): Bytes {
    if s == [] then [] else EncodeUnit(s) + EncodeChars(s[UnitLen(s)..])
  }

  function EncodeString(s: Bytes): Bytes {
    [QUOTE] + (EncodeChars(s) + [QUOTE])
  }

  function DecodeEscape(t: Bytes): Option<(Bytes, nat)>
    requires |t| >= 2
  {
    var b := t[1];
    if b == QUOTE || b == BACKSLASH || b == 47 then Some(([b], 2))
    else if b == 98 then Some(([8], 2))
    else if b == 102 then Some(([12], 2))
    else if b == 110 then Some(([10], 2))
    else if b == 114 then Some(([13], 2))
    else if b == 116 then Some(([9], 2))
    else if b == 117 && |t| >= 6 then DecodeHex(HexValue(t[2]), HexValue(t[3]), HexValue(t[4]), HexValue(t[5]))
    else None
  }

  function DecodeHex(a: Option<nat>, b: Option<nat>, c: Option<nat>, d: Option<nat>): Option<(Bytes, nat)> {
    if a.Some? && b.Some? && c.Some? && d.Some?
       && a.value < 16 && b.value < 16 && c.value < 16 && d.value < 16 then
      var r := a.value * 4096 + b.value * 256 + c.value * 16 + d.value;
      if 0xD800 <= r < 0xE000 then None else Some((Utf8(r), 6))
    else None
  }

  /** One character of a string literal: its bytes and how many were read. */
  function DecodeUnit(t: Bytes): (r: Option<(Bytes, nat)>)
    requires t != []
    ensures r.Some? ==> 0 < r.value.1 <= |t|
  {
    if t[0] == BACKSLASH then (if |t| < 2 then None else DecodeEscape(t))
    else if t[0] < 32 then None
    else if RuneLen(t) == 0 then Some((REPLACEMENT, 1))
    else Some((t[..RuneLen(t)], RuneLen(t)))
  }

  /** The rest of a string literal after its opening quote: its value and what follows it. */
  function DecodeChars(t: Bytes): (r: Option<(Bytes, Bytes)>)
    ensures r.Some? ==> |r.value.1| < |t|
  {
    if t == [] then None
    else if t[0] == QUOTE then Some(([], t[1..]))
    else
      match DecodeUnit(t)
      case None => None
      case Some((unit, n)) =>
        (match DecodeChars(t[n..])
         case None => None
         case Some((more, rest)) => Some((unit + more, rest)))
  }

  function DecodeString(t: Bytes): (r: Option<(Bytes, Bytes)>)
    ensures r.Some? ==> |r.value.1| < |t|
  {
    if t == [] || t[0] != QUOTE then None else DecodeChars(t[1..])
  }

  lemma {:induction false} RuneLenPrefix(s: Bytes, rest: Bytes)
    requires RuneLen(s) > 0
    ensures RuneLen(s[..RuneLen(s)] + rest) == RuneLen(s)
  {}

  lemma EscapeRoundTrip(b: Byte, rest: Bytes)
    requires b < 0x80
    ensures EscapeAscii(b) != [] && EscapeAscii(b)[0] != QUOTE
    ensures DecodeUnit(EscapeAscii(b) + rest) == Some(([b], |EscapeAscii(b)|))
  {
    var e := EscapeAscii(b);
    var t := e + rest;
    if |e| == 6 {
      assert t[2] == e[2] && t[3] == e[3] && t[4] == e[4] && t[5] == e[5];
      assert HexValue(HexDigit(b / 16)) == Some(b / 16) && HexValue(HexDigit(b % 16)) == Some(b % 16);
      assert b / 16 * 16 + b % 16 == b;
    } else if |e| == 1 {
      assert RuneLen(t) == 1 && t[..1] == [b];
    }
  }

  /** A six-byte escape is read as its four digits. */
  lemma HexRoundTrip(a: Byte, b: Byte, c: Byte, d: Byte, rest: Bytes)
    ensures DecodeUnit([BACKSLASH, 117, a, b, c, d] + rest) ==
      DecodeHex(HexValue(a), HexValue(b), HexValue(c), HexValue(d))
  {
    var t: Bytes := [BACKSLASH, 117, a, b, c, d] + rest;
    assert t[0] == BACKSLASH && t[1] == 117 && t[2] == a && t[3] == b && t[4] == c && t[5] == d;
  }

  lemma WholeRuneRoundTrip(s: Bytes, rest: Bytes)
    requires s != [] && s[0] >= 0x80 && RuneLen(s) > 0
    ensures DecodeUnit(s[..RuneLen(s)] + rest) == Some((s[..RuneLen(s)], RuneLen(s)))
  {
    RuneLenPrefix(s, rest);
    var t := s[..RuneLen(s)] + rest;
    assert t[0] == s[0] && t[..RuneLen(s)] == s[..RuneLen(s)];
  }

  lemma UnitRoundTrip(s: Bytes, rest: Bytes)
    requires s != []
    ensures EncodeUnit(s) != [] && EncodeUnit(s)[0] != QUOTE
    ensures DecodeUnit(EncodeUnit(s) + rest) == Some((CleanUnit(s), |EncodeUnit(s)|))
  {
    var e := EncodeUnit(s);
    if s[0] < 0x80 {
      EscapeRoundTrip(s[0], rest);
      assert s[..1] == [s[0]];
    } else if e == s[..RuneLen(s)] && RuneLen(s) > 0 {
      WholeRuneRoundTrip(s, rest);
    } else {
      HexRoundTrip(e[2], e[3], e[4], e[5], rest);
      assert e == [BACKSLASH, 117, e[2], e[3], e[4], e[5]];
    }
  }

  lemma {:induction false} CharsRoundTrip(s: Bytes, rest: Bytes)
    ensures DecodeChars(EncodeChars(s) + [QUOTE] + rest) == Some((Sanitize(s), rest))
  {
    if s != [] {
      var e, tail := EncodeUnit(s), s[UnitLen(s)..];
      var after := EncodeChars(tail) + [QUOTE] + rest;
      assert EncodeChars(s) + [QUOTE] + rest == e + after;
      UnitRoundTrip(s, after);
      assert (e + after)[|e|..] == after;
      CharsRoundTrip(tail, rest);
    }
  }

  lemma StringRoundTrip(s: Bytes, rest: Bytes)
    ensures DecodeString(EncodeString(s) + rest) == Some((Sanitize(s), rest))
  {
    CharsRoundTrip(s, rest);
    AfterFirst(QUOTE, EncodeChars(s) + [QUOTE], rest);
  }

  lemma AfterFirst(b: Byte, body: Bytes, rest: Bytes)
    ensures ([b] + body + rest)[0] == b && ([b] + body + rest)[1..] == body + rest
  {}

  /** Sanitizing keeps exactly the valid strings. */
  lemma {:induction false} SanitizeGrows(s: Bytes)
    ensures |s| <= |Sanitize(s)| && (|s| == |Sanitize(s)| <==> Valid(s))
  {
    if s != [] { SanitizeGrows(s[UnitLen(s)..]); }
  }

  lemma {:induction false} SanitizeKeepsValid(s: Bytes)
    requires Valid(s)
    ensures Sanitize(s) == s
  {
    if s != [] {
      SanitizeKeepsValid(s[RuneLen(s)..]);
      Rejoin(s, RuneLen(s));
    }
  }

  lemma Rejoin(s: Bytes, n: nat)
    requires n <= |s|
    ensures s[..n] + s[n..] == s
  {}

  lemma SanitizeExact(s: Bytes)
    ensures Sanitize(s) == s <==> Valid(s)
  {
    SanitizeGrows(s);
    if Valid(s) { SanitizeKeepsValid(s); }
  }

  lemma {:induction false} SanitizeIsValid(s: Bytes)
    ensures Valid(Sanitize(s))
  {
    if s != [] {
      var unit, more := CleanUnit(s), Sanitize(s[UnitLen(s)..]);
      SanitizeIsValid(s[UnitLen(s)..]);
      assert RuneLen(REPLACEMENT) == 3 && REPLACEMENT[..3] == REPLACEMENT;
      if RuneLen(s) > 0 { RuneLenPrefix(s, more); } else { RuneLenPrefix(REPLACEMENT, more); }
      assert (unit + more)[|unit|..] == more;
    }
  }

  /******* Values *******/

  /** What the metadata files hold: a properties object, a flag, or the null of a nil map. */
  datatype Json = Null | Bool(b: bool) | Object(members: seq<(Bytes, Bytes)>)

  function EncodeMember(m: (Bytes, Bytes)): Bytes {
    EncodeString(m.0) + [58] + EncodeString(m.1)
  }

  /** Members after the first, each behind a comma, and the closing brace. */
  function EncodeMore(ms: seq<(Bytes, Bytes)>): Bytes {
    if ms == [] then [125] else [44] + EncodeMember(ms[0]) + EncodeMore(ms[1..])
  }

  const NULL_TEXT: Bytes := [110, 117, 108, 108]
  const TRUE_TEXT: Bytes := [116, 114, 117, 101]
  const FALSE_TEXT: Bytes := [102, 97, 108, 115, 101]

  function Encode(v: Json): Bytes {
    match v
    case Null => NULL_TEXT
    case Bool(b) => if b then TRUE_TEXT else FALSE_TEXT
    case Object(ms) => [123] + if ms == [] then [125] else EncodeMember(ms[0]) + EncodeMore(ms[1..])
  }

  function SkipSpace(t: Bytes): (r: Bytes)
    ensures |r| <= |t|
  {
    if t != [] && (t[0] == 32 || t[0] == 9 || t[0] == 10 || t[0] == 13) then SkipSpace(t[1..]) else t
  }

  function DecodeMember(t: Bytes): (r: Option<((Bytes, Bytes), Bytes)>)
    ensures r.Some? ==> |r.value.1| < |t|
  {
    match DecodeString(SkipSpace(t))
    case None => None
    case Some((key, t1)) =>
      var t2 := SkipSpace(t1);
      if t2 == [] || t2[0] != 58 then None
      else
        (match DecodeString(SkipSpace(t2[1..]))
         case None => None
         case Some((value, rest)) => Some(((key, value), rest)))
  }

  function DecodeMore(t: Bytes): Option<(seq<(Bytes, Bytes)>, Bytes)>
    decreases |t|
  {
    var t1 := SkipSpace(t);
    if t1 == [] then None
    else if t1[0] == 125 then Some(([], t1[1..]))
    else if t1[0] != 44 then None
    else
      match DecodeMember(t1[1..])
      case None => None
      case Some((m, t2)) =>
        (match DecodeMore(t2)
         case None => None
         case Some((ms, rest)) => Some(([m] + ms, rest)))
  }

  function DecodeObject(t: Bytes): Option<(Json, Bytes)> {
    var t1 := SkipSpace(t);
    if t1 != [] && t1[0] == 125 then Some((Object([]), t1[1..]))
    else
      match DecodeMember(t)
      case None => None
      case Some((m, t2)) =>
        (match DecodeMore(t2)
         case None => None
         case Some((ms, rest)) => Some((Object([m] + ms), rest)))
  }

  /** The first value of a stream and what is left unread. */
  function Decode(t: Bytes): Option<(Json, Bytes)> {
    var t1 := SkipSpace(t);
    if NULL_TEXT <= t1 then Some((Null, t1[4..]))
    else if TRUE_TEXT <= t1 then Some((Bool(true), t1[4..]))
    else if FALSE_TEXT <= t1 then Some((Bool(false), t1[5..]))
    else if t1 != [] && t1[0] == 123 then DecodeObject(t1[1..])
    else None
  }

  function SanitizeMembers(ms: seq<(Bytes, Bytes)>): (r: seq<(Bytes, Bytes)>)
    ensures |r| == |ms| && forall i | 0 <= i < |ms| :: r[i] == (Sanitize(ms[i].0), Sanitize(ms[i].1))
  {
    if ms == [] then [] else [(Sanitize(ms[0].0), Sanitize(ms[0].1))] + SanitizeMembers(ms[1..])
  }

  function SanitizeValue(v: Json): Json {
    if v.Object? then Object(SanitizeMembers(v.members)) else v
  }

  lemma NoSpace(t: Bytes)
    requires t != [] && t[0] > 32
    ensures SkipSpace(t) == t
  {}

  lemma LiteralRoundTrip(s: Bytes, rest: Bytes)
    ensures DecodeString(SkipSpace(EncodeString(s) + rest)) == Some((Sanitize(s), rest))
  {
    NoSpace(EncodeString(s) + rest);
    StringRoundTrip(s, rest);
  }

  lemma MemberRoundTrip(m: (Bytes, Bytes), rest: Bytes)
    ensures DecodeMember(EncodeMember(m) + rest) == Some(((Sanitize(m.0), Sanitize(m.1)), rest))
  {
    var t2 := EncodeString(m.1) + rest;
    var t1 := [58] + t2;
    assert EncodeMember(m) + rest == EncodeString(m.0) + t1;
    LiteralRoundTrip(m.0, t1);
    NoSpace(t1);
    assert t1[1..] == t2;
    LiteralRoundTrip(m.1, rest);
  }

  lemma AfterComma(member: Bytes, more: Bytes, rest: Bytes)
    ensures var t := [44] + member + more + rest; t[0] == 44 && t[1..] == member + (more + rest)
  {}

  lemma {:induction false} MoreRoundTrip(ms: seq<(Bytes, Bytes)>, rest: Bytes)
    ensures DecodeMore(EncodeMore(ms) + rest) == Some((SanitizeMembers(ms), rest))
  {
    NoSpace(EncodeMore(ms) + rest);
    if ms == [] {
      assert ([125] + rest)[1..] == rest;
    } else {
      var t2 := EncodeMore(ms[1..]) + rest;
      AfterComma(EncodeMember(ms[0]), EncodeMore(ms[1..]), rest);
      MemberRoundTrip(ms[0], t2);
      MoreRoundTrip(ms[1..], rest);
    }
  }

  lemma ObjectRoundTrip(ms: seq<(Bytes, Bytes)>, rest: Bytes)
    ensures
      var body := if ms == [] then [125] else EncodeMember(ms[0]) + EncodeMore(ms[1..]);
      DecodeObject(body + rest) == Some((Object(SanitizeMembers(ms)), rest))
  {
    if ms == [] {
      NoSpace([125] + rest);
      assert ([125] + rest)[1..] == rest;
    } else {
      var t2 := EncodeMore(ms[1..]) + rest;
      var t := EncodeMember(ms[0]) + t2;
      assert EncodeMember(ms[0]) + EncodeMore(ms[1..]) + rest == t;
      NoSpace(t);
      MemberRoundTrip(ms[0], t2);
      MoreRoundTrip(ms[1..], rest);
    }
  }

  lemma NullRoundTrip(rest: Bytes)
    ensures Decode(NULL_TEXT + rest) == Some((Null, rest))
  {
    var t := NULL_TEXT + rest;
    NoSpace(t);
    assert NULL_TEXT <= t && t[4..] == rest;
  }

  lemma FlagTextRoundTrip(b: bool, rest: Bytes)
    ensures Decode(Encode(Bool(b)) + rest) == Some((Bool(b), rest))
  {
    var t := Encode(Bool(b)) + rest;
    NoSpace(t);
    assert t[0] != NULL_TEXT[0];
    if b {
      assert TRUE_TEXT <= t && t[4..] == rest;
    } else {
      assert t[0] != TRUE_TEXT[0] && FALSE_TEXT <= t && t[5..] == rest;
    }
  }

  lemma BraceStartsObject(t: Bytes)
    ensures Decode([123] + t) == DecodeObject(t)
  {
    var u: Bytes := [123] + t;
    NoSpace(u);
    assert u[0] != NULL_TEXT[0] && u[0] != TRUE_TEXT[0] && u[0] != FALSE_TEXT[0] && u[1..] == t;
  }

  /** The encoding is self-delimiting: whatever follows it, decoding gives the value back,
      with its strings sanitized, and leaves exactly what followed. */
  lemma SelfDelimiting(v: Json, rest: Bytes)
    ensures Decode(Encode(v) + rest) == Some((SanitizeValue(v), rest))
  {
    match v
    case Null => NullRoundTrip(rest);
    case Bool(b) => FlagTextRoundTrip(b, rest);
    case Object(ms) =>
      var body := if ms == [] then [125] else EncodeMember(ms[0]) + EncodeMore(ms[1..]);
      assert Encode(v) + rest == [123] + (body + rest);
      BraceStartsObject(body + rest);
      ObjectRoundTrip(ms, rest);
  }

  /******* Files *******/

  /** Writing from the start of a file leaves the old bytes beyond the new ones in place. */
  function Overwrite(before: Bytes, text: Bytes): Bytes {
    text + if |before| > |text| then before[|text|..] else []
  }

  /** Byte by byte: the new text where it reaches, the old contents beyond. */
  lemma OverwriteExact(before: Bytes, text: Bytes, i: nat)
    ensures |Overwrite(before, text)| == if |before| > |text| then |before| else |text|
    ensures i < |Overwrite(before, text)| ==> Overwrite(before, text)[i] == if i < |text| then text[i] else before[i]
  {}

  /** The file after a series of stores, each an encoded value and a newline. */
  function Stored(initial: Bytes, vs: seq<Json>): Bytes {
    if vs == [] then initial
    else Overwrite(Stored(initial, vs[..|vs| - 1]), Encode(vs[|vs| - 1]) + [NEWLINE])
  }

  function Load(content: Bytes): Option<Json> {
    match Decode(content)
    case None => None
    case Some((v, _)) => Some(v)
  }

  lemma LoadAfterWrite(before: Bytes, v: Json)
    ensures Load(Overwrite(before, Encode(v) + [NEWLINE])) == Some(SanitizeValue(v))
  {
    var text := Encode(v) + [NEWLINE];
    var left := if |before| > |text| then before[|text|..] else [];
    Regroup(Encode(v), [NEWLINE], left);
    SelfDelimiting(v, [NEWLINE] + left);
  }

  lemma Regroup(a: Bytes, b: Bytes, c: Bytes)
    ensures (a + b) + c == a + (b + c)
  {}

  /** The last store wins: whatever the file held and however long each value is, a load gives
      the last value stored. */
  lemma LastStoreWins(initial: Bytes, vs: seq<Json>)
    requires vs != []
    ensures Load(Stored(initial, vs)) == Some(SanitizeValue(vs[|vs| - 1]))
  {
    LoadAfterWrite(Stored(initial, vs[..|vs| - 1]), vs[|vs| - 1]);
  }

  /******* Properties and the privileged flag *******/

  type Table = map<Bytes, Bytes>

  function ToTable(ms: seq<(Bytes, Bytes)>): Table {
    if ms == [] then map[] else ToTable(ms[..|ms| - 1])[ms[|ms| - 1].0 := ms[|ms| - 1].1]
  }

  /** What a load makes of a value: null leaves the variable it decodes into at its zero value. */
  function AsTable(v: Option<Json>): Option<Table> {
    match v
    case Some(Object(ms)) => Some(ToTable(ms))
    case Some(Null) => Some(map[])
    case _ => None
  }

  function AsFlag(v: Option<Json>): Option<bool> {
    match v
    case Some(Bool(b)) => Some(b)
    case Some(Null) => Some(false)
    case _ => None
  }

  ghost predicate ValidTable(m: Table) {
    forall k <- m :: Valid(k) && Valid(m[k])
  }

  /** A table written out member by member, in any order and each key once. */
  ghost predicate Lists(ms: seq<(Bytes, Bytes)>, m: Table) {
    ToTable(ms) == m && forall i, j | 0 <= i < j < |ms| :: ms[i].0 != ms[j].0
  }

  lemma {:induction false} TableEntry(ms: seq<(Bytes, Bytes)>, k: Bytes)
    ensures k in ToTable(ms) ==> (k, ToTable(ms)[k]) in ms
    ensures (forall i, j | 0 <= i < j < |ms| :: ms[i].0 != ms[j].0) ==>
      forall i | 0 <= i < |ms| && ms[i].0 == k :: k in ToTable(ms) && ToTable(ms)[k] == ms[i].1
  {
    if ms != [] {
      var n := |ms| - 1;
      TableEntry(ms[..n], k);
      assert ms == ms[..n] + [ms[n]];
    }
  }

  lemma {:induction false} CleanTable(ms: seq<(Bytes, Bytes)>, k: Bytes)
    requires k in ToTable(SanitizeMembers(ms))
    ensures Valid(k) && Valid(ToTable(SanitizeMembers(ms))[k])
  {
    TableEntry(SanitizeMembers(ms), k);
    var i :| 0 <= i < |ms| && SanitizeMembers(ms)[i] == (k, ToTable(SanitizeMembers(ms))[k]);
    SanitizeIsValid(ms[i].0);
    SanitizeIsValid(ms[i].1);
  }

  /** Properties survive a store and load exactly when all their names and values are valid
      UTF-8, over any old contents and in any member order. */
  lemma PropertiesRoundTripExact(before: Bytes, ms: seq<(Bytes, Bytes)>, m: Table)
    requires Lists(ms, m)
    ensures AsTable(Load(Overwrite(before, Encode(Object(ms)) + [NEWLINE]))) == Some(m) <==> ValidTable(m)
  {
    LoadAfterWrite(before, Object(ms));
    var clean := SanitizeMembers(ms);
    if ValidTable(m) {
      forall i | 0 <= i < |ms|
        ensures clean[i] == ms[i]
      {
        TableEntry(ms, ms[i].0);
        SanitizeExact(ms[i].0);
        SanitizeExact(ms[i].1);
      }
      assert clean == ms;
    } else if ToTable(clean) == m {
      forall k | k in m ensures Valid(k) && Valid(m[k]) { CleanTable(ms, k); }
    }
  }

  /** A name that is the single byte 0xFF comes back as U+FFFD. */
  lemma InvalidNameIsLost(before: Bytes, value: Bytes)
    ensures
      var loaded := AsTable(Load(Overwrite(before, Encode(Object([([0xFF], value)])) + [NEWLINE])));
      loaded == Some(map[REPLACEMENT := Sanitize(value)]) && loaded != Some(map[[0xFF] := value])
  {
    var ms: seq<(Bytes, Bytes)> := [([0xFF], value)];
    LoadAfterWrite(before, Object(ms));
    assert RuneLen([0xFF]) == 0 && Sanitize([0xFF]) == REPLACEMENT + Sanitize([]);
    assert Sanitize([0xFF]) == REPLACEMENT;
    assert SanitizeMembers(ms) == [(REPLACEMENT, Sanitize(value))];
    var clean := SanitizeMembers(ms);
    assert clean[..0] == [] && ToTable(clean) == map[REPLACEMENT := Sanitize(value)];
    assert |REPLACEMENT| == 3;
    assert [0xFF] !in map[REPLACEMENT := Sanitize(value)];
  }

  /** A flag survives a store and load over any old contents. */
  lemma FlagRoundTrip(before: Bytes, b: bool)
    ensures AsFlag(Load(Overwrite(before, Encode(Bool(b)) + [NEWLINE]))) == Some(b)
  {
    LoadAfterWrite(before, Bool(b));
  }

  /** A nil map is stored as null, which loads as an empty table; as a flag it reads false. */
  lemma NilRoundTrip(before: Bytes)
    ensures AsTable(Load(Overwrite(before, Encode(Null) + [NEWLINE]))) == Some(map[])
    ensures AsFlag(Load(Overwrite(before, Encode(Null) + [NEWLINE]))) == Some(false)
  {
    LoadAfterWrite(before, Null);
  }

  /** Go lists a map's members by sorted key; nothing here depends on the order. */
  method ListMembers(m: Table) returns (ms: seq<(Bytes, Bytes)>)
    ensures Lists(ms, m)
  {
    ms := [];
    var todo := m.Keys;
    ghost var done: Table := map[];
    while todo != {}
      invariant todo <= m.Keys && Lists(ms, done)
      invariant done.Keys == m.Keys - todo && forall k <- done :: done[k] == m[k]
      invariant forall i | 0 <= i < |ms| :: ms[i].0 !in todo
    {
      var k :| k in todo;
      ListOneMore(ms, done, k, m[k]);
      ms, done := ms + [(k, m[k])], done[k := m[k]];
      todo := todo - {k};
    }
    assert done == m;
  }

  datatype Outcome = Done | DoesNotExist | Malformed

  /** A metadata file in a volume directory that may be gone. */
  class MetadataFile {
    var directory: bool
    var content: Option<Bytes>

    constructor (directory: bool)
      ensures this.directory == directory && content == None
    {
      this.directory := directory;
      content := None;
    }

    method Write(v: Json) returns (r: Outcome)
      modifies this
      ensures directory == old(directory)
      ensures r == if directory then Done else DoesNotExist
      ensures content == if directory
                         then Some(Overwrite(if old(content).Some? then old(content).value else [],
                                             Encode(v) + [NEWLINE]))
                         else old(content)
    {
      if !directory {
        return DoesNotExist;
      }
      if content.None? { content := Some([]); }
      content := Some(Overwrite(content.value, Encode(v) + [NEWLINE]));
      return Done;
    }

    method StoreProperties(m: Table) returns (r: Outcome)
      modifies this
      ensures directory == old(directory)
      ensures r == if directory then Done else DoesNotExist
      ensures directory ==> content.Some? && (AsTable(Load(content.value)) == Some(m) <==> ValidTable(m))
      ensures !directory ==> content == old(content)
    {
      var ms := ListMembers(m);
      PropertiesRoundTripExact(if content.Some? then content.value else [], ms, m);
      r := Write(Object(ms));
    }

    method LoadProperties() returns (m: Option<Table>, r: Outcome)
      ensures m == if content.Some? then AsTable(Load(content.value)) else None
      ensures r == if content.None? then DoesNotExist else if m.None? then Malformed else Done
    {
      if content.None? {
        return None, DoesNotExist;
      }
      m := AsTable(Load(content.value));
      r := if m.None? then Malformed else Done;
    }

    method StorePrivileged(b: bool) returns (r: Outcome)
      modifies this
      ensures directory == old(directory)
      ensures r == if directory then Done else DoesNotExist
      ensures directory ==> content.Some? && AsFlag(Load(content.value)) == Some(b)
      ensures !directory ==> content == old(content)
    {
      FlagRoundTrip(if content.Some? then content.value else [], b);
      r := Write(Bool(b));
    }

    method IsPrivileged() returns (b: Option<bool>, r: Outcome)
      ensures b == if content.Some? then AsFlag(Load(content.value)) else None
      ensures r == if content.None? then DoesNotExist else if b.None? then Malformed else Done
    {
      if content.None? {
        return None, DoesNotExist;
      }
      b := AsFlag(Load(content.value));
      r := if b.None? then Malformed else Done;
    }
  }

  lemma ListOneMore(ms: seq<(Bytes, Bytes)>, m: Table, k: Bytes, v: Bytes)
    requires Lists(ms, m) && forall i | 0 <= i < |ms| :: ms[i].0 != k
    ensures Lists(ms + [(k, v)], m[k := v])
  {
    assert (ms + [(k, v)])[..|ms|] == ms;
  }
}
