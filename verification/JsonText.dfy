/** The text of JSON values as RFC 8259 has it, against the encoder and decoder of the metadata
    files.

    The grammar here is that of sections 2, 3, 4 and 7 for the values the files hold, with member
    values that are strings, and without escaped surrogates. */
module JsonText {
  import opened Wrappers
  import opened Metadata

  const COLON: Byte := ':' as int
  const COMMA: Byte := ',' as int
  const OPEN: Byte := '{' as int
  const CLOSE: Byte := '}' as int

  /** The bytes are those of an ASCII text. */
  ghost predicate Spells(t: Bytes, s: string) {
    |t| == |s| && forall i | 0 <= i < |t| :: t[i] == s[i] as int
  }

  ghost predicate IsSpace(b: Byte) {
    b == ' ' as int || b == '\t' as int || b == '\n' as int || b == '\r' as int
  }

  ghost predicate Space(t: Bytes) {
    forall i | 0 <= i < |t| :: IsSpace(t[i])
  }

  /******* Strings *******/

  ghost predicate Digit(b: Byte, v: nat) {
    || (v < 10 && b == '0' as int + v)
    || (10 <= v < 16 && (b == 'a' as int + v - 10 || b == 'A' as int + v - 10))
  }

  ghost predicate Hex(t: Bytes, a: nat, b: nat, c: nat, d: nat) {
    |t| == 6 && Digit(t[2], a) && Digit(t[3], b) && Digit(t[4], c) && Digit(t[5], d)
  }

  /** The two-character escapes: what stands after the backslash, and for what. */
  ghost predicate Stands(b: Byte, c: Byte) {
    || ((b == '"' as int || b == '\\' as int || b == '/' as int) && c == b)
    || (b == 'b' as int && c == 8) || (b == 'f' as int && c == 12) || (b == 'n' as int && c == 10)
    || (b == 'r' as int && c == 13) || (b == 't' as int && c == 9)
  }

  ghost predicate Short(t: Bytes, s: Bytes) {
    |t| == 2 && |s| == 1 && t[0] == '\\' as int && Stands(t[1], s[0])
  }

  /** The six-character escape of a character that is not a surrogate. */
  ghost predicate Long(t: Bytes, s: Bytes) {
    && |t| == 6 && t[0] == '\\' as int && t[1] == 'u' as int
    && exists a, b, c, d :: Hex(t, a, b, c, d) && Names(a, b, c, d, s)
  }

  ghost predicate Names(a: nat, b: nat, c: nat, d: nat, s: Bytes) {
    var r := a * 4096 + b * 256 + c * 16 + d;
    r < 0x10000 && !(0xD800 <= r < 0xE000) && s == Utf8(r)
  }

  /** One character as it is, in UTF-8. */
  ghost predicate Plain(t: Bytes, s: Bytes) {
    t == s && t != [] && RuneLen(t) == |t| && t[0] >= 0x20 && t[0] != '"' as int && t[0] != '\\' as int
  }

  ghost predicate Unit(t: Bytes, s: Bytes) {
    Plain(t, s) || Short(t, s) || Long(t, s)
  }

  /** The text between the quotes of a string. */
  ghost predicate Chars(t: Bytes, s: Bytes)
    decreases |t|
  {
    || (t == [] && s == [])
    || exists n: nat, m: nat :: 0 < n <= |t| && m <= |s| && Unit(t[..n], s[..m]) && Chars(t[n..], s[m..])
  }

  lemma CharsCons(u: Bytes, v: Bytes, t: Bytes, s: Bytes)
    requires u != [] && Unit(u, v) && Chars(t, s)
    ensures Chars(u + t, v + s)
  {
    var n, m := |u|, |v|;
    assert (u + t)[..n] == u && (u + t)[n..] == t && (v + s)[..m] == v && (v + s)[m..] == s;
  }

  lemma HexText(n: nat)
    requires n < 16
    ensures Digit(HexDigit(n), n)
  {}

  lemma LongText(t: Bytes, a: nat, b: nat, c: nat, d: nat, s: Bytes)
    requires |t| == 6 && t[0] == '\\' as int && t[1] == 'u' as int
    requires Digit(t[2], a) && Digit(t[3], b) && Digit(t[4], c) && Digit(t[5], d) && Names(a, b, c, d, s)
    ensures Long(t, s)
  {
    assert Hex(t, a, b, c, d);
  }

  lemma AsciiConforms(b: Byte)
    requires b < 0x80
    ensures Unit(EscapeAscii(b), [b])
  {
    var e := EscapeAscii(b);
    if |e| == 6 {
      HexText(0);
      HexText(b / 16);
      HexText(b % 16);
      assert b / 16 * 16 + b % 16 == b;
      LongText(e, 0, 0, b / 16, b % 16, [b]);
    } else if |e| == 2 {
      assert Short(e, [b]);
    } else {
      assert Plain(e, [b]);
    }
  }

  lemma {:induction false} RuneLenWhole(s: Bytes)
    requires RuneLen(s) > 0
    ensures RuneLen(s[..RuneLen(s)]) == RuneLen(s)
  {
    RuneLenPrefix(s, []);
    assert s[..RuneLen(s)] + [] == s[..RuneLen(s)];
  }

  lemma EscapedConforms(e: Bytes, a: nat, b: nat, c: nat, d: nat, s: Bytes)
    requires a < 16 && b < 16 && c < 16 && d < 16
    requires e == [BACKSLASH, 117, HexDigit(a), HexDigit(b), HexDigit(c), HexDigit(d)] && Names(a, b, c, d, s)
    ensures Unit(e, s)
  {
    LongText(e, a, b, c, d, s);
  }

  lemma ReplacementConforms()
    ensures Unit([BACKSLASH, 117, 102, 102, 102, 100], REPLACEMENT)
  {
    EscapedConforms([BACKSLASH, 117, 102, 102, 102, 100], 15, 15, 15, 13, REPLACEMENT);
  }

  lemma SeparatorsConform()
    ensures Unit([BACKSLASH, 117, 50, 48, 50, 56], [0xE2, 0x80, 0xA8])
    ensures Unit([BACKSLASH, 117, 50, 48, 50, 57], [0xE2, 0x80, 0xA9])
  {
    EscapedConforms([BACKSLASH, 117, 50, 48, 50, 56], 2, 0, 2, 8, [0xE2, 0x80, 0xA8]);
    EscapedConforms([BACKSLASH, 117, 50, 48, 50, 57], 2, 0, 2, 9, [0xE2, 0x80, 0xA9]);
  }

  lemma PlainConforms(s: Bytes)
    requires s != [] && s[0] >= 0x80 && RuneLen(s) > 0
    ensures Unit(s[..RuneLen(s)], s[..RuneLen(s)])
  {
    RuneLenWhole(s);
    assert s[..RuneLen(s)][0] == s[0];
  }

  /** What the encoder writes for one character denotes that character, or U+FFFD for an invalid
      byte. */
  lemma UnitConforms(s: Bytes)
    requires s != []
    ensures EncodeUnit(s) != [] && Unit(EncodeUnit(s), CleanUnit(s))
  {
    if s[0] < 0x80 {
      AsciiConforms(s[0]);
      assert s[..1] == [s[0]];
    } else if RuneLen(s) == 0 {
      ReplacementConforms();
    } else {
      SeparatorsConform();
      PlainConforms(s);
    }
  }

  lemma {:induction false} CharsConform(s: Bytes)
    ensures Chars(EncodeChars(s), Sanitize(s))
  {
    if s != [] {
      UnitConforms(s);
      CharsConform(s[UnitLen(s)..]);
      CharsCons(EncodeUnit(s), CleanUnit(s), EncodeChars(s[UnitLen(s)..]), Sanitize(s[UnitLen(s)..]));
    }
  }

  lemma DigitValue(b: Byte, v: nat)
    requires Digit(b, v)
    ensures HexValue(b) == Some(v) && v < 16
  {}

  lemma NamedDecodes(a: nat, b: nat, c: nat, d: nat, s: Bytes)
    requires a < 16 && b < 16 && c < 16 && d < 16 && Names(a, b, c, d, s)
    ensures DecodeHex(Some(a), Some(b), Some(c), Some(d)) == Some((s, 6))
  {}

  lemma SixBytes(t: Bytes)
    requires |t| == 6 && t[0] == BACKSLASH && t[1] == 117
    ensures t == [BACKSLASH, 117, t[2], t[3], t[4], t[5]]
  {}

  lemma LongDecodes(t: Bytes, s: Bytes, rest: Bytes)
    requires Long(t, s)
    ensures DecodeUnit(t + rest) == Some((s, 6))
  {
    var a, b, c, d :| Hex(t, a, b, c, d) && Names(a, b, c, d, s);
    DigitValue(t[2], a);
    DigitValue(t[3], b);
    DigitValue(t[4], c);
    DigitValue(t[5], d);
    NamedDecodes(a, b, c, d, s);
    SixBytes(t);
    HexRoundTrip(t[2], t[3], t[4], t[5], rest);
  }

  lemma ShortDecodes(t: Bytes, s: Bytes, rest: Bytes)
    requires Short(t, s)
    ensures DecodeUnit(t + rest) == Some((s, 2))
  {
    var u := t + rest;
    assert u[0] == BACKSLASH && u[1] == t[1] && |u| >= 2;
    assert s == [s[0]];
  }

  /** Every character that the grammar allows is decoded as what it denotes. */
  lemma UnitDecodes(t: Bytes, s: Bytes, rest: Bytes)
    requires Unit(t, s)
    ensures t != [] && t[0] != QUOTE && DecodeUnit(t + rest) == Some((s, |t|))
  {
    if Plain(t, s) {
      RuneLenPrefix(t, rest);
      assert t[..|t|] == t && (t + rest)[..|t|] == t && (t + rest)[0] == t[0];
    } else if Short(t, s) {
      ShortDecodes(t, s, rest);
    } else {
      LongDecodes(t, s, rest);
    }
  }

  /** Decoding past one character. */
  lemma PastUnit(u: Bytes, v: Bytes, after: Bytes, more: Bytes, rest: Bytes)
    requires Unit(u, v) && DecodeChars(after) == Some((more, rest))
    ensures DecodeChars(u + after) == Some((v + more, rest))
  {
    UnitDecodes(u, v, after);
    assert (u + after)[|u|..] == after && (u + after)[0] == u[0];
  }

  lemma {:induction false} CharsDecode(t: Bytes, s: Bytes, rest: Bytes)
    requires Chars(t, s)
    ensures DecodeChars(t + ([QUOTE] + rest)) == Some((s, rest))
    decreases |t|
  {
    if t == [] && s == [] {
      assert t + ([QUOTE] + rest) == [QUOTE] + rest && ([QUOTE] + rest)[1..] == rest;
    } else {
      var n: nat, m: nat :| 0 < n <= |t| && m <= |s| && Unit(t[..n], s[..m]) && Chars(t[n..], s[m..]);
      CharsDecode(t[n..], s[m..], rest);
      PastUnit(t[..n], s[..m], t[n..] + ([QUOTE] + rest), s[m..], rest);
      Rejoined(t, n, [QUOTE] + rest);
      Rejoin(s, m);
    }
  }

  lemma Rejoined(t: Bytes, n: nat, rest: Bytes)
    requires n <= |t|
    ensures t[..n] + (t[n..] + rest) == t + rest
  {}

  ghost predicate Quoted(t: Bytes, s: Bytes) {
    |t| >= 2 && t[0] == '"' as int && t[|t| - 1] == '"' as int && Chars(t[1..|t| - 1], s)
  }

  lemma BetweenQuotes(body: Bytes)
    ensures var t := [QUOTE] + (body + [QUOTE]); |t| >= 2 && t[|t| - 1] == QUOTE && t[1..|t| - 1] == body
  {}

  lemma StringConforms(s: Bytes)
    ensures Quoted(EncodeString(s), Sanitize(s))
  {
    CharsConform(s);
    BetweenQuotes(EncodeChars(s));
  }

  lemma AfterQuote(t: Bytes, rest: Bytes)
    requires |t| >= 2 && t[|t| - 1] == QUOTE
    ensures (t + rest)[0] == t[0] && (t + rest)[1..] == t[1..|t| - 1] + ([QUOTE] + rest)
  {}

  lemma QuotedDecodes(t: Bytes, s: Bytes, rest: Bytes)
    requires Quoted(t, s)
    ensures DecodeString(t + rest) == Some((s, rest))
  {
    CharsDecode(t[1..|t| - 1], s, rest);
    AfterQuote(t, rest);
  }

  /******* Values *******/

  /** A member with any white space around its parts. */
  ghost predicate MemberParts(
    t: Bytes, m: (Bytes, Bytes), w1: Bytes, k: Bytes, w2: Bytes, w3: Bytes, v: Bytes, w4: Bytes)
  {
    && t == w1 + (k + (w2 + ([COLON] + (w3 + (v + w4)))))
    && Space(w1) && Space(w2) && Space(w3) && Space(w4) && Quoted(k, m.0) && Quoted(v, m.1)
  }

  ghost predicate Member(t: Bytes, m: (Bytes, Bytes)) {
    exists w1, k, w2, w3, v, w4 :: MemberParts(t, m, w1, k, w2, w3, v, w4)
  }

  ghost predicate Joined(t: Bytes, u: Bytes, v: Bytes) {
    t == u + ([COMMA] + v)
  }

  /** One or more members with commas between them. */
  ghost predicate Members(t: Bytes, ms: seq<(Bytes, Bytes)>)
    decreases |ms|
  {
    && ms != []
    && if |ms| == 1 then Member(t, ms[0])
       else exists u, v :: Joined(t, u, v) && Member(u, ms[0]) && Members(v, ms[1..])
  }

  /** The text of a value. */
  ghost predicate Value(t: Bytes, v: Json) {
    match v
    case Null => Spells(t, "null")
    case Bool(b) => Spells(t, if b then "true" else "false")
    case Object(ms) => |t| >= 2 && t[0] == OPEN && t[|t| - 1] == CLOSE && Body(t[1..|t| - 1], ms)
  }

  ghost predicate Body(t: Bytes, ms: seq<(Bytes, Bytes)>) {
    if ms == [] then Space(t) else Members(t, ms)
  }

  lemma MemberConforms(m: (Bytes, Bytes))
    ensures Member(EncodeMember(m), (Sanitize(m.0), Sanitize(m.1)))
  {
    StringConforms(m.0);
    StringConforms(m.1);
    var k, v := EncodeString(m.0), EncodeString(m.1);
    Unspaced(k, v);
    assert MemberParts(EncodeMember(m), (Sanitize(m.0), Sanitize(m.1)), [], k, [], [], v, []);
  }

  lemma Unspaced(k: Bytes, v: Bytes)
    ensures k + [COLON] + v == [] + (k + ([] + ([COLON] + ([] + (v + [])))))
  {}

  /** The text of the members without the closing brace. */
  lemma {:induction false} MembersConform(ms: seq<(Bytes, Bytes)>) returns (t: Bytes)
    requires ms != []
    ensures EncodeMember(ms[0]) + EncodeMore(ms[1..]) == t + [CLOSE] && Members(t, SanitizeMembers(ms))
  {
    MemberConforms(ms[0]);
    if |ms| == 1 {
      t := EncodeMember(ms[0]);
    } else {
      var u := MembersConform(ms[1..]);
      t := EncodeMember(ms[0]) + ([COMMA] + u);
      MoreText(ms[1..], u);
      Regroup(EncodeMember(ms[0]), [COMMA] + u, [CLOSE]);
      JoinedConform(ms, u);
    }
  }

  lemma MoreText(ms: seq<(Bytes, Bytes)>, u: Bytes)
    requires ms != [] && EncodeMember(ms[0]) + EncodeMore(ms[1..]) == u + [CLOSE]
    ensures EncodeMore(ms) == [COMMA] + u + [CLOSE]
  {
    Regroup([44], EncodeMember(ms[0]), EncodeMore(ms[1..]));
    Regroup([COMMA], u, [CLOSE]);
  }

  lemma JoinedConform(ms: seq<(Bytes, Bytes)>, u: Bytes)
    requires |ms| >= 2 && Members(u, SanitizeMembers(ms[1..]))
    requires Member(EncodeMember(ms[0]), (Sanitize(ms[0].0), Sanitize(ms[0].1)))
    ensures Members(EncodeMember(ms[0]) + ([COMMA] + u), SanitizeMembers(ms))
  {
    var clean := SanitizeMembers(ms);
    assert clean[1..] == SanitizeMembers(ms[1..]);
    assert Joined(EncodeMember(ms[0]) + ([COMMA] + u), EncodeMember(ms[0]), u);
  }

  /** What the encoder writes is the text of the value, with its strings made valid. */
  lemma EncodeConforms(v: Json)
    ensures Value(Encode(v), SanitizeValue(v))
  {
    if v.Object? { ObjectConforms(v.members); }
  }

  lemma ObjectConforms(ms: seq<(Bytes, Bytes)>)
    ensures Value(Encode(Object(ms)), Object(SanitizeMembers(ms)))
  {
    if ms == [] {
      assert [] + [CLOSE] == [CLOSE];
      InBraces([], []);
    } else {
      var body := MembersConform(ms);
      InBraces(body, SanitizeMembers(ms));
    }
  }

  lemma InBraces(body: Bytes, ms: seq<(Bytes, Bytes)>)
    requires Body(body, ms)
    ensures Value([OPEN] + (body + [CLOSE]), Object(ms))
  {
    Bracketed(body);
  }

  lemma Bracketed(body: Bytes)
    ensures var t := [OPEN] + (body + [CLOSE]);
      |t| >= 2 && t[0] == OPEN && t[|t| - 1] == CLOSE && t[1..|t| - 1] == body
  {}

  lemma {:induction false} SpaceSkipped(w: Bytes, t: Bytes)
    requires Space(w)
    ensures SkipSpace(w + t) == SkipSpace(t)
  {
    if w == [] {
      assert w + t == t;
    } else {
      assert IsSpace(w[0]) && (w + t)[0] == w[0] && (w + t)[1..] == w[1..] + t;
      SpaceSkipped(w[1..], t);
    }
  }

  lemma SpacedQuoted(w: Bytes, q: Bytes, s: Bytes, rest: Bytes)
    requires Space(w) && Quoted(q, s)
    ensures DecodeString(SkipSpace(w + (q + rest))) == Some((s, rest))
  {
    SpaceSkipped(w, q + rest);
    NoSpace(q + rest);
    QuotedDecodes(q, s, rest);
  }

  /** A member is decoded up to the white space after it. */
  lemma MemberDecodes(t: Bytes, m: (Bytes, Bytes), rest: Bytes) returns (w: Bytes)
    requires Member(t, m)
    ensures Space(w) && DecodeMember(t + rest) == Some((m, w + rest))
  {
    var w1, k, w2, w3, v, w4 :| MemberParts(t, m, w1, k, w2, w3, v, w4);
    w := w4;
    var t3 := w3 + (v + (w4 + rest));
    var t2 := [COLON] + t3;
    assert t + rest == w1 + (k + (w2 + t2));
    SpacedQuoted(w1, k, m.0, w2 + t2);
    SpaceSkipped(w2, t2);
    NoSpace(t2);
    assert t2[0] == 58 && t2[1..] == t3;
    SpacedQuoted(w3, v, m.1, w4 + rest);
  }

  lemma EndDecodes(w: Bytes, rest: Bytes)
    requires Space(w)
    ensures DecodeMore(w + ([CLOSE] + rest)) == Some(([], rest))
  {
    var t := [CLOSE] + rest;
    SpaceSkipped(w, t);
    NoSpace(t);
    assert t[1..] == rest;
  }

  lemma PastComma(w: Bytes, tail: Bytes, m: (Bytes, Bytes), t: Bytes, ms: seq<(Bytes, Bytes)>, rest: Bytes)
    requires Space(w) && DecodeMember(tail) == Some((m, t)) && DecodeMore(t) == Some((ms, rest))
    ensures DecodeMore(w + ([COMMA] + tail)) == Some(([m] + ms, rest))
  {
    var here := [COMMA] + tail;
    SpaceSkipped(w, here);
    NoSpace(here);
    assert here[0] == 44 && here[1..] == tail;
  }

  /** What stands after a first member: a comma, the other members and the closing brace. */
  function Others(v: Bytes, rest: Bytes): Bytes {
    [COMMA] + (v + ([CLOSE] + rest))
  }

  lemma FirstOfMany(t: Bytes, u: Bytes, v: Bytes, m: (Bytes, Bytes), rest: Bytes) returns (w: Bytes)
    requires Joined(t, u, v) && Member(u, m)
    ensures t + ([CLOSE] + rest) == u + Others(v, rest)
    ensures Space(w) && DecodeMember(t + ([CLOSE] + rest)) == Some((m, w + Others(v, rest)))
  {
    Regroup3(u, [COMMA], v, [CLOSE] + rest);
    w := MemberDecodes(u, m, Others(v, rest));
  }

  lemma HeadAndTail(ms: seq<(Bytes, Bytes)>)
    requires ms != []
    ensures [ms[0]] + ms[1..] == ms
  {}

  lemma LastDecodes(w: Bytes, t: Bytes, m: (Bytes, Bytes), rest: Bytes)
    requires Space(w) && Member(t, m)
    ensures DecodeMore(w + Others(t, rest)) == Some(([m] + [], rest))
  {
    var w' := MemberDecodes(t, m, [CLOSE] + rest);
    EndDecodes(w', rest);
    PastComma(w, t + ([CLOSE] + rest), m, w' + ([CLOSE] + rest), [], rest);
  }

  /** After a first member, the others and the closing brace. */
  lemma {:induction false} MoreDecodes(w: Bytes, t: Bytes, ms: seq<(Bytes, Bytes)>, rest: Bytes)
    requires Space(w) && Members(t, ms)
    ensures DecodeMore(w + Others(t, rest)) == Some((ms, rest))
    decreases |ms|
  {
    HeadAndTail(ms);
    if |ms| > 1 {
      var u, v := SplitMembers(t, ms);
      var w' := FirstOfMany(t, u, v, ms[0], rest);
      MoreDecodes(w', v, ms[1..], rest);
      PastComma(w, t + ([CLOSE] + rest), ms[0], w' + Others(v, rest), ms[1..], rest);
    } else {
      LastDecodes(w, t, ms[0], rest);
    }
  }

  lemma SplitMembers(t: Bytes, ms: seq<(Bytes, Bytes)>) returns (u: Bytes, v: Bytes)
    requires Members(t, ms) && |ms| > 1
    ensures Joined(t, u, v) && Member(u, ms[0]) && Members(v, ms[1..])
  {
    u, v :| Joined(t, u, v) && Member(u, ms[0]) && Members(v, ms[1..]);
  }

  lemma Regroup3(a: Bytes, b: Bytes, c: Bytes, d: Bytes)
    ensures (a + (b + c)) + d == a + (b + (c + d))
  {}

  lemma PastFirst(t: Bytes, m: (Bytes, Bytes), u: Bytes, ms: seq<(Bytes, Bytes)>, rest: Bytes)
    requires DecodeMember(t) == Some((m, u)) && DecodeMore(u) == Some((ms, rest))
    requires var t1 := SkipSpace(t); t1 != [] && t1[0] == QUOTE
    ensures DecodeObject(t) == Some((Object([m] + ms), rest))
  {}

  lemma EmptyBodyDecodes(body: Bytes, rest: Bytes)
    requires Space(body)
    ensures DecodeObject(body + ([CLOSE] + rest)) == Some((Object([]), rest))
  {
    var close := [CLOSE] + rest;
    SpaceSkipped(body, close);
    NoSpace(close);
    assert close[1..] == rest;
  }

  lemma OneMemberDecodes(body: Bytes, m: (Bytes, Bytes), rest: Bytes)
    requires Member(body, m)
    ensures DecodeObject(body + ([CLOSE] + rest)) == Some((Object([m] + []), rest))
  {
    MemberStarts(body, m, [CLOSE] + rest);
    var w := MemberDecodes(body, m, [CLOSE] + rest);
    EndDecodes(w, rest);
    PastFirst(body + ([CLOSE] + rest), m, w + ([CLOSE] + rest), [], rest);
  }

  lemma BodyDecodes(body: Bytes, ms: seq<(Bytes, Bytes)>, rest: Bytes)
    requires Body(body, ms)
    ensures DecodeObject(body + ([CLOSE] + rest)) == Some((Object(ms), rest))
  {
    if ms == [] {
      EmptyBodyDecodes(body, rest);
    } else {
      HeadAndTail(ms);
      if |ms| == 1 {
        OneMemberDecodes(body, ms[0], rest);
      } else {
        var u, v := SplitMembers(body, ms);
        var w := FirstOfMany(body, u, v, ms[0], rest);
        MemberStarts(u, ms[0], Others(v, rest));
        MoreDecodes(w, v, ms[1..], rest);
        PastFirst(body + ([CLOSE] + rest), ms[0], w + Others(v, rest), ms[1..], rest);
      }
    }
  }

  lemma MemberStarts(t: Bytes, m: (Bytes, Bytes), rest: Bytes)
    requires Member(t, m)
    ensures var t1 := SkipSpace(t + rest); t1 != [] && t1[0] == QUOTE
  {
    var w1, k, w2, w3, v, w4 :| MemberParts(t, m, w1, k, w2, w3, v, w4);
    var after := k + (w2 + ([COLON] + (w3 + (v + w4))));
    assert t + rest == w1 + (after + rest);
    SpaceSkipped(w1, after + rest);
    NoSpace(after + rest);
  }

  lemma SpelledOnce(t: Bytes, u: Bytes, s: string)
    requires Spells(t, s) && Spells(u, s)
    ensures t == u
  {}

  lemma ObjectDecodes(t: Bytes, ms: seq<(Bytes, Bytes)>, rest: Bytes)
    requires Value(t, Object(ms))
    ensures Decode(t + rest) == Some((Object(ms), rest))
  {
    var body := t[1..|t| - 1];
    var inner := body + ([CLOSE] + rest);
    assert t + rest == [123] + inner;
    BodyDecodes(body, ms, rest);
    BraceStartsObject(inner);
  }

  lemma ValueDecodes(t: Bytes, v: Json, rest: Bytes)
    requires Value(t, v)
    ensures Decode(t + rest) == Some((v, rest)) && t != [] && t[0] > 32
  {
    match v
    case Null =>
      SpelledOnce(t, NULL_TEXT, "null");
      NullRoundTrip(rest);
    case Bool(b) =>
      SpelledOnce(t, Encode(v), if b then "true" else "false");
      assert Encode(v)[0] == 116 || Encode(v)[0] == 102;
      FlagTextRoundTrip(b, rest);
    case Object(ms) => ObjectDecodes(t, ms, rest);
  }

  /** Every text of a value, behind any white space and whatever follows, is decoded as that
      value, and what follows is left. */
  lemma DecodeConforms(w: Bytes, t: Bytes, v: Json, rest: Bytes)
    requires Space(w) && Value(t, v)
    ensures Decode(w + (t + rest)) == Some((v, rest))
  {
    ValueDecodes(t, v, rest);
    SpaceSkipped(w, t + rest);
    NoSpace(t + rest);
  }

  /******* What the decoder accepts *******/

  /** A byte that is not valid UTF-8 is read as U+FFFD. */
  ghost predicate Replaced(t: Bytes, s: Bytes) {
    |t| == 1 && t[0] >= 0x80 && s == REPLACEMENT
  }

  /** Text between quotes as the decoder reads it. */
  ghost predicate CharsRead(t: Bytes, s: Bytes)
    decreases |t|
  {
    || (t == [] && s == [])
    || exists n: nat, m: nat ::
         && 0 < n <= |t| && m <= |s| && (Unit(t[..n], s[..m]) || Replaced(t[..n], s[..m])) && CharsRead(t[n..], s[m..])
  }

  lemma ReadCons(u: Bytes, v: Bytes, t: Bytes, s: Bytes)
    requires u != [] && (Unit(u, v) || Replaced(u, v)) && CharsRead(t, s)
    ensures CharsRead(u + t, v + s)
  {
    var n, m := |u|, |v|;
    assert (u + t)[..n] == u && (u + t)[n..] == t && (v + s)[..m] == v && (v + s)[m..] == s;
  }

  lemma ValueDigit(b: Byte)
    requires HexValue(b).Some?
    ensures Digit(b, HexValue(b).value)
  {}

  lemma EscapeIsUnit(t: Bytes)
    requires |t| >= 2 && t[0] == BACKSLASH && DecodeEscape(t).Some?
    ensures var (s, n) := DecodeEscape(t).value; 0 < n <= |t| && Unit(t[..n], s)
  {
    if t[1] == 117 {
      var u := t[..6];
      ValueDigit(t[2]);
      ValueDigit(t[3]);
      ValueDigit(t[4]);
      ValueDigit(t[5]);
      assert u[0] == t[0] && u[1] == t[1] && u[2] == t[2] && u[3] == t[3] && u[4] == t[4] && u[5] == t[5];
      LongText(u, HexValue(t[2]).value, HexValue(t[3]).value, HexValue(t[4]).value, HexValue(t[5]).value,
               DecodeEscape(t).value.0);
    } else {
      assert Short(t[..2], DecodeEscape(t).value.0);
    }
  }

  lemma ReadUnit(t: Bytes)
    requires t != [] && t[0] != QUOTE && DecodeUnit(t).Some?
    ensures var (s, n) := DecodeUnit(t).value; 0 < n <= |t| && (Unit(t[..n], s) || Replaced(t[..n], s))
  {
    if t[0] == BACKSLASH {
      EscapeIsUnit(t);
    } else if RuneLen(t) > 0 {
      RuneLenWhole(t);
      assert t[..RuneLen(t)][0] == t[0];
    }
  }

  /** Whatever is accepted between quotes is text that the grammar allows, with invalid bytes read
      as U+FFFD. */
  lemma {:induction false} CharsAccepted(t: Bytes) returns (text: Bytes)
    requires DecodeChars(t).Some?
    ensures var (s, rest) := DecodeChars(t).value; t == text + ([QUOTE] + rest) && CharsRead(text, s)
    decreases |t|
  {
    if t[0] == QUOTE {
      text := [];
      assert t == [] + ([QUOTE] + t[1..]);
    } else {
      var (v, n) := DecodeUnit(t).value;
      ReadUnit(t);
      var more := CharsAccepted(t[n..]);
      var (s, rest) := DecodeChars(t[n..]).value;
      text := t[..n] + more;
      ReadCons(t[..n], v, more, s);
      Rejoin(t, n);
      Regroup(t[..n], more, [QUOTE] + rest);
    }
  }

  ghost predicate QuotedRead(t: Bytes, s: Bytes) {
    |t| >= 2 && t[0] == QUOTE && t[|t| - 1] == QUOTE && CharsRead(t[1..|t| - 1], s)
  }

  lemma StringAccepted(t: Bytes) returns (text: Bytes)
    requires DecodeString(t).Some?
    ensures var (s, rest) := DecodeString(t).value; t == text + rest && QuotedRead(text, s)
  {
    var inner := CharsAccepted(t[1..]);
    var (s, rest) := DecodeString(t).value;
    text := [QUOTE] + (inner + [QUOTE]);
    BetweenQuotes(inner);
    Unquoted(t, inner, rest);
  }

  lemma Unquoted(t: Bytes, inner: Bytes, rest: Bytes)
    requires t != [] && t[0] == QUOTE && t[1..] == inner + ([QUOTE] + rest)
    ensures t == [QUOTE] + (inner + [QUOTE]) + rest
  {
    assert t == [t[0]] + t[1..];
  }

  lemma {:induction false} SpaceTaken(t: Bytes) returns (w: Bytes)
    ensures Space(w) && t == w + SkipSpace(t)
  {
    if t != [] && (t[0] == 32 || t[0] == 9 || t[0] == 10 || t[0] == 13) {
      var more := SpaceTaken(t[1..]);
      w := [t[0]] + more;
      assert t == [t[0]] + t[1..];
    } else {
      w := [];
    }
  }

  /** A member as the decoder reads it. */
  ghost predicate MemberRead(t: Bytes, m: (Bytes, Bytes)) {
    exists w1, k, w2, w3, v :: MemberReadParts(t, m, w1, k, w2, w3, v)
  }

  ghost predicate MemberReadParts(t: Bytes, m: (Bytes, Bytes), w1: Bytes, k: Bytes, w2: Bytes, w3: Bytes, v: Bytes) {
    && t == w1 + (k + (w2 + ([COLON] + (w3 + v))))
    && Space(w1) && Space(w2) && Space(w3) && QuotedRead(k, m.0) && QuotedRead(v, m.1)
  }

  lemma MemberAccepted(t: Bytes) returns (text: Bytes)
    requires DecodeMember(t).Some?
    ensures var (m, rest) := DecodeMember(t).value; t == text + rest && MemberRead(text, m)
  {
    var w1 := SpaceTaken(t);
    var k := StringAccepted(SkipSpace(t));
    var (key, t1) := DecodeString(SkipSpace(t)).value;
    var w2 := SpaceTaken(t1);
    var t2 := SkipSpace(t1);
    var w3 := SpaceTaken(t2[1..]);
    var v := StringAccepted(SkipSpace(t2[1..]));
    var (value, rest) := DecodeString(SkipSpace(t2[1..])).value;
    text := w1 + (k + (w2 + ([COLON] + (w3 + v))));
    assert t2 == [COLON] + t2[1..];
    MemberSplit(t, w1, k, w2, w3, v, rest, t1, t2);
    assert MemberReadParts(text, (key, value), w1, k, w2, w3, v);
  }

  lemma MemberSplit(
    t: Bytes, w1: Bytes, k: Bytes, w2: Bytes, w3: Bytes, v: Bytes, rest: Bytes, t1: Bytes, t2: Bytes)
    requires t == w1 + (k + t1) && t1 == w2 + t2 && t2 != [] && t2 == [COLON] + (w3 + (v + rest))
    ensures t == (w1 + (k + (w2 + ([COLON] + (w3 + v))))) + rest
  {}

  /** Members after the first, each behind a comma, up to the closing brace. */
  ghost predicate MoreRead(t: Bytes, ms: seq<(Bytes, Bytes)>)
    decreases |ms|
  {
    if ms == [] then ClosedRead(t)
    else exists w, u, v :: MorePartsRead(t, w, u, v) && MemberRead(u, ms[0]) && MoreRead(v, ms[1..])
  }

  ghost predicate ClosedRead(t: Bytes) {
    t != [] && t[|t| - 1] == CLOSE && Space(t[..|t| - 1])
  }

  ghost predicate MorePartsRead(t: Bytes, w: Bytes, u: Bytes, v: Bytes) {
    Space(w) && t == w + ([COMMA] + (u + v))
  }

  lemma ClosedAccepted(t: Bytes) returns (text: Bytes)
    requires var t1 := SkipSpace(t); t1 != [] && t1[0] == CLOSE
    ensures t == text + SkipSpace(t)[1..] && ClosedRead(text)
  {
    var w := SpaceTaken(t);
    var t1 := SkipSpace(t);
    text := w + [CLOSE];
    assert t1 == [CLOSE] + t1[1..] && text[..|text| - 1] == w;
  }

  lemma {:induction false} MoreAccepted(t: Bytes) returns (text: Bytes)
    requires DecodeMore(t).Some?
    ensures var (ms, rest) := DecodeMore(t).value; t == text + rest && MoreRead(text, ms)
    decreases |t|
  {
    var t1 := SkipSpace(t);
    if t1[0] == CLOSE {
      text := ClosedAccepted(t);
    } else {
      var w := SpaceTaken(t);
      var u := MemberAccepted(t1[1..]);
      var (m, t2) := DecodeMember(t1[1..]).value;
      var v := MoreAccepted(t2);
      var (ms, rest) := DecodeMore(t2).value;
      text := w + ([COMMA] + (u + v));
      FirstByte(t1);
      MoreSplit(t, w, u, v, rest);
      MoreBuilt(w, u, v, m, ms);
    }
  }

  lemma FirstByte(t: Bytes)
    requires t != []
    ensures t == [t[0]] + t[1..]
  {}

  lemma MoreBuilt(w: Bytes, u: Bytes, v: Bytes, m: (Bytes, Bytes), ms: seq<(Bytes, Bytes)>)
    requires Space(w) && MemberRead(u, m) && MoreRead(v, ms)
    ensures MoreRead(w + ([COMMA] + (u + v)), [m] + ms)
  {
    ConsMembers(m, ms);
    assert MorePartsRead(w + ([COMMA] + (u + v)), w, u, v);
  }

  lemma ConsMembers(m: (Bytes, Bytes), ms: seq<(Bytes, Bytes)>)
    ensures ([m] + ms)[0] == m && ([m] + ms)[1..] == ms
  {}

  lemma MoreSplit(t: Bytes, w: Bytes, u: Bytes, v: Bytes, rest: Bytes)
    requires t == w + ([COMMA] + (u + (v + rest)))
    ensures t == (w + ([COMMA] + (u + v))) + rest
  {}

  /** The text of a value as the decoder reads it. */
  ghost predicate ValueRead(t: Bytes, v: Json) {
    match v
    case Null => Spells(t, "null")
    case Bool(b) => Spells(t, if b then "true" else "false")
    case Object(ms) => t != [] && t[0] == OPEN && BodyRead(t[1..], ms)
  }

  ghost predicate BodyRead(t: Bytes, ms: seq<(Bytes, Bytes)>) {
    if ms == [] then ClosedRead(t)
    else exists u, v :: t == u + v && MemberRead(u, ms[0]) && MoreRead(v, ms[1..])
  }

  lemma BodyAccepted(t: Bytes) returns (text: Bytes)
    requires DecodeObject(t).Some?
    ensures var (v, rest) := DecodeObject(t).value; v.Object? && t == text + rest && BodyRead(text, v.members)
  {
    var t1 := SkipSpace(t);
    if t1 != [] && t1[0] == CLOSE {
      text := ClosedAccepted(t);
    } else {
      var u := MemberAccepted(t);
      var (m, t2) := DecodeMember(t).value;
      var v := MoreAccepted(t2);
      var (ms, rest) := DecodeMore(t2).value;
      text := u + v;
      Regroup(u, v, rest);
      ConsMembers(m, ms);
    }
  }

  lemma WordAccepted(word: Bytes, t: Bytes)
    requires word <= t
    ensures t == word + t[|word|..]
  {}

  lemma Words()
    ensures Spells(NULL_TEXT, "null") && Spells(TRUE_TEXT, "true") && Spells(FALSE_TEXT, "false")
  {}

  lemma ObjectAccepted(t: Bytes) returns (text: Bytes)
    requires t != [] && t[0] == OPEN && DecodeObject(t[1..]).Some?
    ensures var (v, rest) := DecodeObject(t[1..]).value; t == text + rest && ValueRead(text, v)
  {
    var body := BodyAccepted(t[1..]);
    text := [OPEN] + body;
    assert t == [OPEN] + t[1..] && text[1..] == body;
  }

  /** Nothing else is accepted: what the decoder takes is white space and the text of the value it
      gives, and the rest is what follows. */
  lemma DecodeAccepts(t: Bytes) returns (w: Bytes, text: Bytes)
    requires Decode(t).Some?
    ensures var (v, rest) := Decode(t).value; Space(w) && t == w + (text + rest) && ValueRead(text, v)
  {
    w := SpaceTaken(t);
    Words();
    var t1 := SkipSpace(t);
    if NULL_TEXT <= t1 {
      text := NULL_TEXT;
      WordAccepted(text, t1);
    } else if TRUE_TEXT <= t1 {
      text := TRUE_TEXT;
      WordAccepted(text, t1);
    } else if FALSE_TEXT <= t1 {
      text := FALSE_TEXT;
      WordAccepted(text, t1);
    } else {
      text := ObjectAccepted(t1);
    }
  }
}
