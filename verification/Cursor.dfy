/** The opaque page cursor: a two-field JSON object in unpadded base64url. */
module Cursor {
  import opened Sums
  import opened Calendar
  import opened Iso

  datatype TxCursor = TxCursor(occurredAt: string, id: string)

  // ----- base64url, section 5 of RFC 4648 -----

  predicate Bytes(b: seq<int>) {
    forall i :: 0 <= i < |b| ==> 0 <= b[i] < 256
  }

  function Sextet(v: int): char
    requires 0 <= v < 64
  {
    if v < 26 then ('A' as int + v) as char
    else if v < 52 then ('a' as int + v - 26) as char
    else if v < 62 then ('0' as int + v - 52) as char
    else if v == 62 then '-' else '_'
  }

  function SextetValue(c: char): Option<int> {
    if 'A' <= c <= 'Z' then Some(c as int - 'A' as int)
    else if 'a' <= c <= 'z' then Some(c as int - 'a' as int + 26)
    else if '0' <= c <= '9' then Some(c as int - '0' as int + 52)
    else if c == '-' then Some(62)
    else if c == '_' then Some(63)
    else None
  }

  lemma SextetRoundTrip(v: int)
    requires 0 <= v < 64
    ensures SextetValue(Sextet(v)) == Some(v)
  {
  }

  /** The sextets of a byte string, three bytes to four sextets. */
  function ToSextets(b: seq<int>): (v: seq<int>)
    requires Bytes(b)
    ensures forall i :: 0 <= i < |v| ==> 0 <= v[i] < 64
    ensures |v| == (4 * |b| + 2) / 3
  {
    if |b| == 0 then []
    else if |b| == 1 then [b[0] / 4, b[0] % 4 * 16]
    else if |b| == 2 then [b[0] / 4, b[0] % 4 * 16 + b[1] / 16, b[1] % 16 * 4]
    else [b[0] / 4, b[0] % 4 * 16 + b[1] / 16, b[1] % 16 * 4 + b[2] / 64, b[2] % 64] + ToSextets(b[3..])
  }

  function FromSextets(v: seq<int>): seq<int> {
    if |v| < 2 then []
    else if |v| == 2 then [v[0] * 4 + v[1] / 16]
    else if |v| == 3 then [v[0] * 4 + v[1] / 16, v[1] % 16 * 16 + v[2] / 4]
    else [v[0] * 4 + v[1] / 16, v[1] % 16 * 16 + v[2] / 4, v[2] % 4 * 64 + v[3]] + FromSextets(v[4..])
  }

  lemma Group(x: int, y: int, z: int)
    requires 0 <= x < 256 && 0 <= y < 256 && 0 <= z < 256
    ensures x / 4 * 4 + (x % 4 * 16 + y / 16) / 16 == x
    ensures (x % 4 * 16 + y / 16) % 16 * 16 + (y % 16 * 4 + z / 64) / 4 == y
    ensures (y % 16 * 4 + z / 64) % 4 * 64 + z % 64 == z
  {
  }

  lemma ToMoreSextets(b: seq<int>)
    requires Bytes(b) && |b| >= 3
    ensures Bytes(b[3..])
    ensures ToSextets(b) == [b[0] / 4, b[0] % 4 * 16 + b[1] / 16, b[1] % 16 * 4 + b[2] / 64, b[2] % 64] + ToSextets(b[3..])
  {
  }

  lemma FromMoreSextets(p: int, q: int, r: int, s: int, v: seq<int>)
    ensures FromSextets([p, q, r, s] + v) == [p * 4 + q / 16, q % 16 * 16 + r / 4, r % 4 * 64 + s] + FromSextets(v)
  {
    assert ([p, q, r, s] + v)[4..] == v;
  }

  lemma OneByte(x: int)
    requires 0 <= x < 256
    ensures FromSextets([x / 4, x % 4 * 16]) == [x]
  {
    assert x % 4 * 16 / 16 == x % 4;
  }

  lemma TwoBytes(x: int, y: int)
    requires 0 <= x < 256 && 0 <= y < 256
    ensures FromSextets([x / 4, x % 4 * 16 + y / 16, y % 16 * 4]) == [x, y]
  {
    Group(x, y, 0);
  }

  lemma ToFewSextets(b: seq<int>)
    requires Bytes(b) && |b| < 3
    ensures ToSextets(b) == if |b| == 0 then []
                            else if |b| == 1 then [b[0] / 4, b[0] % 4 * 16]
                            else [b[0] / 4, b[0] % 4 * 16 + b[1] / 16, b[1] % 16 * 4]
  {
  }

  lemma ShortRoundTrip(b: seq<int>)
    requires Bytes(b) && |b| < 3
    ensures FromSextets(ToSextets(b)) == b
  {
    hide FromSextets, ToSextets;
    ToFewSextets(b);
    if |b| == 0 {
      NoBytes();
    } else if |b| == 1 {
      OneByte(b[0]);
      assert b == [b[0]];
    } else {
      TwoBytes(b[0], b[1]);
      assert b == [b[0], b[1]];
    }
  }

  lemma NoBytes()
    ensures FromSextets([]) == []
  {
  }

  lemma {:induction false} SextetsRoundTrip(b: seq<int>)
    requires Bytes(b)
    ensures FromSextets(ToSextets(b)) == b
  {
    hide ToSextets, FromSextets;
    if |b| < 3 {
      ShortRoundTrip(b);
    } else {
      ToMoreSextets(b);
      FromMoreSextets(b[0] / 4, b[0] % 4 * 16 + b[1] / 16, b[1] % 16 * 4 + b[2] / 64, b[2] % 64, ToSextets(b[3..]));
      Group(b[0], b[1], b[2]);
      SextetsRoundTrip(b[3..]);
      assert b == [b[0], b[1], b[2]] + b[3..];
    }
  }

  function ToBase64(b: seq<int>): (s: string)
    requires Bytes(b)
    ensures |s| == (4 * |b| + 2) / 3
  {
    var v := ToSextets(b);
    seq(|v|, i requires 0 <= i < |v| => Sextet(v[i]))
  }

  function FromBase64(s: string): Option<seq<int>> {
    if exists i :: 0 <= i < |s| && SextetValue(s[i]).None? then None
    else Some(FromSextets(seq(|s|, i requires 0 <= i < |s| => ValueAt(s, i))))
  }

  function ValueAt(s: string, i: nat): int
    requires i < |s|
  {
    var v := SextetValue(s[i]);
    if v.Some? then v.value else 0
  }

  lemma Base64RoundTrip(b: seq<int>)
    requires Bytes(b)
    ensures FromBase64(ToBase64(b)) == Some(b)
  {
    var v, s := ToSextets(b), ToBase64(b);
    forall i | 0 <= i < |s|
      ensures SextetValue(s[i]) == Some(v[i])
    {
      SextetRoundTrip(v[i]);
    }
    assert seq(|s|, i requires 0 <= i < |s| => ValueAt(s, i)) == v;
    SextetsRoundTrip(b);
  }

  lemma TextOfSextets(b: seq<int>, v: seq<int>, s: string)
    requires Bytes(b) && ToSextets(b) == v && |s| == |v|
    requires forall i :: 0 <= i < |v| ==> 0 <= v[i] < 64 && s[i] == Sextet(v[i])
    ensures ToBase64(b) == s
  {
  }

  /** "foo" and a rest. */
  lemma AfterFoo(b: seq<int>)
    requires Bytes(b)
    ensures ToSextets([102, 111, 111] + b) == [25, 38, 61, 47] + ToSextets(b)
  {
    hide ToSextets;
    var all := [102, 111, 111] + b;
    ToMoreSextets(all);
    assert all[3..] == b;
  }

  /** "foob", "fooba" and "foobar" of section 10 of RFC 4648, without the padding, and the two characters of section 5. */
  lemma KnownVectors()
    ensures ToBase64([102, 111, 111] + [98]) == "Zm9vYg"
    ensures ToBase64([102, 111, 111] + [98, 97]) == "Zm9vYmE"
    ensures ToBase64([102, 111, 111] + [98, 97, 114]) == "Zm9vYmFy"
    ensures ToBase64([251, 255, 254]) == "-__-"
  {
    hide ToSextets, ToBase64;
    AfterFoo([98]);
    ToFewSextets([98]);
    TextOfSextets([102, 111, 111] + [98], [25, 38, 61, 47, 24, 32], "Zm9vYg");
    AfterFoo([98, 97]);
    ToFewSextets([98, 97]);
    TextOfSextets([102, 111, 111] + [98, 97], [25, 38, 61, 47, 24, 38, 4], "Zm9vYmE");
    ThreeBytes(98, 97, 114);
    AfterFoo([98, 97, 114]);
    TextOfSextets([102, 111, 111] + [98, 97, 114], [25, 38, 61, 47, 24, 38, 5, 50], "Zm9vYmFy");
    ThreeBytes(251, 255, 254);
    TextOfSextets([251, 255, 254], [62, 63, 63, 62], "-__-");
  }

  lemma ThreeBytes(x: int, y: int, z: int)
    requires Bytes([x, y, z])
    ensures ToSextets([x, y, z]) == [x / 4, x % 4 * 16 + y / 16, y % 16 * 4 + z / 64, z % 64]
  {
    hide ToSextets;
    ToMoreSextets([x, y, z]);
    assert [x, y, z][3..] == [];
    ToFewSextets([]);
  }

  // ----- the JSON text -----

  /** Printable ASCII that JSON writes as itself. */
  predicate PlainChar(c: char) {
    ' ' <= c <= '~' && c != '"' && c != '\\'
  }

  predicate PlainText(s: string) {
    forall i :: 0 <= i < |s| ==> PlainChar(s[i])
  }

  const OPEN := "{\"occurredAt\":\""
  const MIDDLE := "\",\"id\":\""
  const CLOSE := "\"}"

  function ToJson(c: TxCursor): string {
    OPEN + c.occurredAt + MIDDLE + c.id + CLOSE
  }

  /** The text before the first quote. */
  function UpToQuote(s: string): (head: string)
    ensures head <= s
  {
    if s == "" || s[0] == '"' then "" else [s[0]] + UpToQuote(s[1..])
  }

  lemma {:induction false} UpToQuoteStops(a: string, rest: string)
    requires PlainText(a) && rest != "" && rest[0] == '"'
    ensures UpToQuote(a + rest) == a
  {
    if a == "" {
      assert a + rest == rest;
    } else {
      assert (a + rest)[1..] == a[1..] + rest;
      UpToQuoteStops(a[1..], rest);
    }
  }

  lemma KnownJson()
    ensures ToJson(TxCursor("T", "1")) == "{\"occurredAt\":\"T\",\"id\":\"1\"}"
  {
  }

  function FromJson(t: string): Option<TxCursor> {
    if !(OPEN <= t) then None
    else
      var a := UpToQuote(t[|OPEN|..]);
      var r := t[|OPEN| + |a|..];
      if !(MIDDLE <= r) then None
      else
        var b := UpToQuote(r[|MIDDLE|..]);
        if r[|MIDDLE| + |b|..] == CLOSE && PlainText(a) && PlainText(b) then Some(TxCursor(a, b)) else None
  }

  /** Taking a text of five parts apart again. */
  lemma PartsOf(o: string, a: string, m: string, b: string, c: string)
    ensures var t := o + a + m + b + c;
            && o <= t && t[|o|..] == a + (m + (b + c)) && t[|o| + |a|..] == m + (b + c)
            && m <= m + (b + c) && (m + (b + c))[|m|..] == b + c && (m + (b + c))[|m| + |b|..] == c
  {
  }

  lemma Quoted()
    ensures |MIDDLE| > 0 && MIDDLE[0] == '"' && |CLOSE| > 0 && CLOSE[0] == '"'
  {
  }

  lemma JsonRoundTrip(c: TxCursor)
    requires PlainText(c.occurredAt) && PlainText(c.id)
    ensures FromJson(ToJson(c)) == Some(c)
  {
    hide OPEN, MIDDLE, CLOSE;
    Quoted();
    PartsOf(OPEN, c.occurredAt, MIDDLE, c.id, CLOSE);
    UpToQuoteStops(c.occurredAt, MIDDLE + (c.id + CLOSE));
    UpToQuoteStops(c.id, CLOSE);
  }

  // ----- the cursor -----

  predicate Ascii(s: string) {
    forall i :: 0 <= i < |s| ==> s[i] < 128 as char
  }

  function ToUtf8(s: string): (b: seq<int>)
    requires Ascii(s)
    ensures Bytes(b) && |b| == |s|
  {
    seq(|s|, i requires 0 <= i < |s| => s[i] as int)
  }

  function FromUtf8(b: seq<int>): Option<string> {
    if exists i :: 0 <= i < |b| && !(0 <= b[i] < 128) then None
    else Some(seq(|b|, i requires 0 <= i < |b| => CharOf(b[i])))
  }

  function CharOf(b: int): char {
    if 0 <= b < 128 then b as char else ' '
  }

  lemma JsonIsAscii(c: TxCursor)
    requires PlainText(c.occurredAt) && PlainText(c.id)
    ensures Ascii(ToJson(c)) && |ToJson(c)| == 25 + |c.occurredAt| + |c.id|
  {
  }

  function Encode(c: TxCursor): string
    requires PlainText(c.occurredAt) && PlainText(c.id)
  {
    JsonIsAscii(c);
    ToBase64(ToUtf8(ToJson(c)))
  }

  /** `decodeCursor`: null unless both fields are there and the date parses. */
  function Decode(raw: string): Option<TxCursor> {
    match FromBase64(raw)
    case None => None
    case Some(bytes) =>
      match FromUtf8(bytes)
      case None => None
      case Some(text) =>
        match FromJson(text)
        case None => None
        case Some(c) => if c.id == "" || FromIso(c.occurredAt).None? then None else Some(c)
  }

  /** Decoding gives back the cursor that was encoded, for every date that parses and every plain identifier. */
  lemma DecodeEncode(c: TxCursor)
    requires PlainText(c.occurredAt) && PlainText(c.id) && c.id != "" && FromIso(c.occurredAt).Some?
    ensures Decode(Encode(c)) == Some(c)
  {
    hide FromIso, ToBase64, FromBase64, ToJson, FromJson;
    JsonIsAscii(c);
    var t := ToJson(c);
    Base64RoundTrip(ToUtf8(t));
    Utf8RoundTrip(t);
    JsonRoundTrip(c);
  }

  /** The JSON text of a cursor is the only text read as it. */
  lemma JsonReadsBack(t: string, c: TxCursor)
    requires FromJson(t) == Some(c)
    ensures t == ToJson(c) && PlainText(c.occurredAt) && PlainText(c.id)
  {
    hide OPEN, MIDDLE, CLOSE, UpToQuote, PlainText;
    var a := UpToQuote(t[|OPEN|..]);
    var r := t[|OPEN| + |a|..];
    var b := UpToQuote(r[|MIDDLE|..]);
    JoinTwo(t, OPEN, a);
    JoinTwo(r, MIDDLE, b);
    JoinFive(OPEN, a, MIDDLE, b, CLOSE);
  }

  lemma JoinFive(o: string, a: string, m: string, b: string, c: string)
    ensures o + a + (m + b + c) == o + a + m + b + c
  {
  }

  lemma JoinTwo(t: string, head: string, next: string)
    requires head <= t && next <= t[|head|..]
    ensures |head| + |next| <= |t| && t == head + next + t[|head| + |next|..]
  {
  }

  /** What decodes is a cursor the service could have written: base64url of its JSON text, with a date that parses and an
      identifier. */
  lemma DecodesOnlyCursors(raw: string, c: TxCursor)
    requires Decode(raw) == Some(c)
    ensures PlainText(c.occurredAt) && PlainText(c.id) && c.id != "" && FromIso(c.occurredAt).Some?
    ensures FromBase64(raw).Some? && FromUtf8(FromBase64(raw).value) == Some(ToJson(c))
  {
    hide FromJson, FromIso, FromBase64, FromUtf8, ToJson;
    JsonReadsBack(FromUtf8(FromBase64(raw).value).value, c);
  }

  lemma Utf8RoundTrip(s: string)
    requires Ascii(s)
    ensures FromUtf8(ToUtf8(s)) == Some(s)
  {
    var b := ToUtf8(s);
    assert seq(|b|, i requires 0 <= i < |b| => CharOf(b[i])) == s;
  }

  // ----- cursors made from rows -----

  lemma DigitsArePlain(s: string)
    requires Digits(s)
    ensures PlainText(s)
  {
  }

  lemma ConcatPlain(s: string, t: string)
    requires PlainText(s) && PlainText(t)
    ensures PlainText(s + t)
  {
  }

  lemma TailIsPlain(c: Civil, k: Clock)
    requires ValidCivil(c)
    ensures PlainText(TailText(c, k))
  {
    var a, b, d, e, f, g := Two(c.month + 1), Two(c.day), Two(k.h), Two(k.mi), Two(k.sec), Three(k.ms);
    FieldsAt(a, b, d, e, f, g);
    AllPlain(Fields(a, b, d, e, f, g), a, b, d, e, f, g);
  }

  lemma AllPlain(r: string, a: string, b: string, d: string, e: string, f: string, g: string)
    requires |a| == |b| == |d| == |e| == |f| == 2 && |g| == 3 && |r| == 20
    requires Digits(a) && Digits(b) && Digits(d) && Digits(e) && Digits(f) && Digits(g)
    requires r[0] == '-' && r[1] == a[0] && r[2] == a[1] && r[3] == '-' && r[4] == b[0] && r[5] == b[1]
    requires r[6] == 'T' && r[7] == d[0] && r[8] == d[1] && r[9] == ':' && r[10] == e[0] && r[11] == e[1]
    requires r[12] == ':' && r[13] == f[0] && r[14] == f[1] && r[15] == '.'
    requires r[16] == g[0] && r[17] == g[1] && r[18] == g[2] && r[19] == 'Z'
    ensures PlainText(r)
  {
  }

  lemma IsoIsPlain(t: Instant)
    requires Writable(t)
    ensures PlainText(ToIso(t))
  {
    hide TailText, FromDay, ClockOf;
    var c, k := DateOf(t), ClockOf(t.time);
    TailIsPlain(c, k);
    YearIsPlain(c.year);
    ConcatPlain(YearField(c.year), TailText(c, k));
  }

  lemma YearIsPlain(y: int)
    ensures PlainText(YearField(y))
  {
    hide Four, Six;
    if 0 <= y <= 9999 {
      DigitsArePlain(Four(y));
    } else {
      DigitsArePlain(Six(if y < 0 then -y else y));
    }
  }

  /** The cursor of a row. */
  function OfRow(t: Instant, id: string): string
    requires Writable(t) && PlainText(id)
  {
    IsoIsPlain(t);
    Encode(TxCursor(ToIso(t), id))
  }

  lemma RowRoundTrip(t: Instant, id: string)
    requires Writable(t) && PlainText(id) && id != ""
    ensures Decode(OfRow(t, id)) == Some(TxCursor(ToIso(t), id)) && FromIso(ToIso(t)) == Some(t)
  {
    hide Encode, Decode, FromIso, ToIso;
    IsoIsPlain(t);
    IsoRoundTrip(t);
    DecodeEncode(TxCursor(ToIso(t), id));
  }

  /** Every cursor the service hands out for a UUID and a four-digit year has 114 characters: more than the 64 the
      request's cursor field admits. */
  lemma CursorsOutgrowTheirField(t: Instant, id: string)
    requires Writable(t) && 0 <= DateOf(t).year <= 9999 && PlainText(id) && |id| == 36
    ensures |OfRow(t, id)| == 114 > 64
  {
    hide ToIso, ToBase64, FromIso, DateOf, ToJson, ToUtf8;
    IsoIsPlain(t);
    IsoRoundTrip(t);
    JsonIsAscii(TxCursor(ToIso(t), id));
  }
}
