/** internal/anchor/types.go and the cursor check of internal/mcp/tools_anchor.go: a cursor is the
    big-endian registry ID the next page starts at, in base64 (section 4 of RFC 4648). */
module Cursors {
  import opened Outcomes

  const UINT64_SPAN: nat := 0x1_0000_0000_0000_0000

  // ---------- base64 ----------

  type Sextet = v: int | 0 <= v < 64

  function Digit(v: Sextet): char {
    if v < 26 then ('A' as int + v) as char
    else if v < 52 then ('a' as int + v - 26) as char
    else if v < 62 then ('0' as int + v - 52) as char
    else if v == 62 then '+' else '/'
  }

  function Value(c: char): Option<Sextet> {
    if 'A' <= c <= 'Z' then Some(c as int - 'A' as int)
    else if 'a' <= c <= 'z' then Some(c as int - 'a' as int + 26)
    else if '0' <= c <= '9' then Some(c as int - '0' as int + 52)
    else if c == '+' then Some(62)
    else if c == '/' then Some(63)
    else None
  }

  lemma DigitValue(v: Sextet)
    ensures Value(Digit(v)) == Some(v)
    ensures Digit(v) != '=' && Digit(v) != '\n' && Digit(v) != '\r'
  {
  }

  function High6(x: Byte): Sextet { x / 4 }

  function Low2High4(x: Byte, y: Byte): Sextet { x % 4 * 16 + y / 16 }

  function Low4High2(y: Byte, z: Byte): Sextet { y % 16 * 4 + z / 64 }

  function Low6(z: Byte): Sextet { z % 64 }

  function Byte0(v0: Sextet, v1: Sextet): Byte { v0 * 4 + v1 / 16 }

  function Byte1(v1: Sextet, v2: Sextet): Byte { v1 % 16 * 16 + v2 / 4 }

  function Byte2(v2: Sextet, v3: Sextet): Byte { v2 % 4 * 64 + v3 }

  function Encode(b: Bytes): string {
    if |b| == 0 then ""
    else if |b| == 1 then [Digit(High6(b[0])), Digit(Low2High4(b[0], 0)), '=', '=']
    else if |b| == 2 then [Digit(High6(b[0])), Digit(Low2High4(b[0], b[1])), Digit(Low4High2(b[1], 0)), '=']
    else
      [Digit(High6(b[0])), Digit(Low2High4(b[0], b[1])), Digit(Low4High2(b[1], b[2])), Digit(Low6(b[2]))]
      + Encode(b[3..])
  }

  /** Four characters at a time; padding ends the text, and its spare bits are not looked at. */
  function DecodeQuads(s: string): Option<Bytes> {
    if s == "" then Some([])
    else if |s| < 4 || Value(s[0]).None? || Value(s[1]).None? then None
    else
      var v0, v1 := Value(s[0]).value, Value(s[1]).value;
      if s[2] == '=' then if s[3] == '=' && |s| == 4 then Some([Byte0(v0, v1)]) else None
      else if Value(s[2]).None? then None
      else
        var v2 := Value(s[2]).value;
        if s[3] == '=' then if |s| == 4 then Some([Byte0(v0, v1), Byte1(v1, v2)]) else None
        else if Value(s[3]).None? || DecodeQuads(s[4..]).None? then None
        else Some([Byte0(v0, v1), Byte1(v1, v2), Byte2(v2, Value(s[3]).value)] + DecodeQuads(s[4..]).value)
  }

  /** Line breaks are skipped wherever they stand. */
  function WithoutBreaks(s: string): string {
    if s == "" then ""
    else (if s[0] == '\n' || s[0] == '\r' then "" else [s[0]]) + WithoutBreaks(s[1..])
  }

  function Decode(s: string): Option<Bytes> {
    DecodeQuads(WithoutBreaks(s))
  }

  lemma {:induction false} NothingToSkip(s: string)
    requires forall i :: 0 <= i < |s| ==> s[i] != '\n' && s[i] != '\r'
    ensures WithoutBreaks(s) == s
  {
    if s != "" {
      NothingToSkip(s[1..]);
      assert [s[0]] + s[1..] == s;
    }
  }

  lemma {:induction false} EncodeHasNoBreaks(b: Bytes)
    ensures forall i :: 0 <= i < |Encode(b)| ==> Encode(b)[i] != '\n' && Encode(b)[i] != '\r'
    ensures b != [] ==> Encode(b) != ""
  {
    hide High6, Low2High4, Low4High2, Low6;
    if |b| > 2 {
      EncodeHasNoBreaks(b[3..]);
    }
  }

  lemma SixBitsAtATime(x: Byte, y: Byte, z: Byte)
    ensures Byte0(High6(x), Low2High4(x, y)) == x
    ensures Byte1(Low2High4(x, y), Low4High2(y, z)) == y
    ensures Byte2(Low4High2(y, z), Low6(z)) == z
  {
  }

  lemma DecodesPadded2(v0: Sextet, v1: Sextet)
    ensures DecodeQuads([Digit(v0), Digit(v1), '=', '=']) == Some([Byte0(v0, v1)])
  {
    DigitValue(v0);
    DigitValue(v1);
    hide Digit, Value, Byte0, Byte1, Byte2;
  }

  lemma DecodesPadded1(v0: Sextet, v1: Sextet, v2: Sextet)
    ensures DecodeQuads([Digit(v0), Digit(v1), Digit(v2), '=']) == Some([Byte0(v0, v1), Byte1(v1, v2)])
  {
    DigitValue(v0);
    DigitValue(v1);
    DigitValue(v2);
    hide Digit, Value, Byte0, Byte1, Byte2;
  }

  lemma DecodesDigits(v0: Sextet, v1: Sextet, v2: Sextet, v3: Sextet, rest: string)
    requires DecodeQuads(rest).Some?
    ensures DecodeQuads([Digit(v0), Digit(v1), Digit(v2), Digit(v3)] + rest)
         == Some([Byte0(v0, v1), Byte1(v1, v2), Byte2(v2, v3)] + DecodeQuads(rest).value)
  {
    DigitValue(v0);
    DigitValue(v1);
    DigitValue(v2);
    DigitValue(v3);
    hide Digit, Value, Byte0, Byte1, Byte2;
    var s := [Digit(v0), Digit(v1), Digit(v2), Digit(v3)] + rest;
    assert s[4..] == rest;
  }

  lemma EncodesBytes(x: Byte, y: Byte, z: Byte, rest: Bytes)
    ensures Encode([x, y, z] + rest)
         == [Digit(High6(x)), Digit(Low2High4(x, y)), Digit(Low4High2(y, z)), Digit(Low6(z))] + Encode(rest)
  {
    hide Digit, High6, Low2High4, Low4High2, Low6;
    var b := [x, y, z] + rest;
    assert b[0] == x && b[1] == y && b[2] == z && b[3..] == rest;
  }

  lemma DecodesOne(x: Byte)
    ensures DecodeQuads(Encode([x])) == Some([x])
  {
    var v0, v1 := High6(x), Low2High4(x, 0);
    assert Byte0(v0, v1) == x;
    DecodesPadded2(v0, v1);
    hide DecodeQuads, Digit, High6, Low2High4, Byte0;
  }

  lemma DecodesTwo(x: Byte, y: Byte)
    ensures DecodeQuads(Encode([x, y])) == Some([x, y])
  {
    SixBitsAtATime(x, y, 0);
    DecodesPadded1(High6(x), Low2High4(x, y), Low4High2(y, 0));
    assert Encode([x, y]) == [Digit(High6(x)), Digit(Low2High4(x, y)), Digit(Low4High2(y, 0)), '='];
  }

  lemma DecodesBytes(x: Byte, y: Byte, z: Byte, rest: Bytes)
    requires DecodeQuads(Encode(rest)) == Some(rest)
    ensures DecodeQuads(Encode([x, y, z] + rest)) == Some([x, y, z] + rest)
  {
    SixBitsAtATime(x, y, z);
    DecodesDigits(High6(x), Low2High4(x, y), Low4High2(y, z), Low6(z), Encode(rest));
    EncodesBytes(x, y, z, rest);
    hide *;
  }

  lemma {:induction false} QuadsRoundTrip(b: Bytes)
    ensures DecodeQuads(Encode(b)) == Some(b)
  {
    if |b| == 0 {
    } else if |b| == 1 {
      assert b == [b[0]];
      DecodesOne(b[0]);
    } else if |b| == 2 {
      assert b == [b[0], b[1]];
      DecodesTwo(b[0], b[1]);
    } else {
      assert b == [b[0], b[1], b[2]] + b[3..];
      QuadsRoundTrip(b[3..]);
      DecodesBytes(b[0], b[1], b[2], b[3..]);
    }
  }

  /** Table 1 of RFC 4648, and how three bytes make four digits: both are one number of 24 bits. */
  lemma DigitsAreTheAlphabet(v: Sextet, x: Byte, y: Byte, z: Byte)
    ensures (Digit(0), Digit(25), Digit(26), Digit(51), Digit(52), Digit(61)) == ('A', 'Z', 'a', 'z', '0', '9')
    ensures v !in {25, 51, 61, 62, 63} ==> Digit(v + 1) as int == Digit(v) as int + 1
    ensures (Digit(62), Digit(63)) == ('+', '/')
    ensures High6(x) * 0x40000 + Low2High4(x, y) * 0x1000 + Low4High2(y, z) * 0x40 + Low6(z)
         == x * 0x10000 + y * 0x100 + z
  {
    assert x == x / 4 * 4 + x % 4 && y == y / 16 * 16 + y % 16 && z == z / 64 * 64 + z % 64;
  }

  /** Section 10 of RFC 4648: "f", "fo", "foo" and "foobar". */
  lemma KnownTexts()
    ensures Encode([102]) == "Zg==" && Encode([102, 111]) == "Zm8=" && Encode([102, 111, 111]) == "Zm9v"
    ensures Encode([102, 111, 111, 98, 97, 114]) == "Zm9vYmFy"
  {
    assert Encode([]) == "";
    assert [102, 111, 111][3..] == [] && [102, 111, 111, 98, 97, 114][3..] == [98, 97, 114] && [98, 97, 114][3..] == [];
    assert Encode([98, 97, 114]) == "YmFy";
  }

  /** What is not decoded: a text whose length without line breaks does not fit its bytes. */
  lemma {:induction false} DecodedLength(s: string)
    ensures DecodeQuads(s).Some? ==> |s| == (|DecodeQuads(s).value| + 2) / 3 * 4
  {
    hide Value, Byte0, Byte1, Byte2;
    if DecodeQuads(s).Some? && s != "" && s[2] != '=' && s[3] != '=' {
      DecodedLength(s[4..]);
    }
  }

  lemma {:induction false} WithoutBreaksAppend(a: string, b: string)
    ensures WithoutBreaks(a + b) == WithoutBreaks(a) + WithoutBreaks(b)
  {
    if a == "" {
      assert a + b == b;
    } else {
      assert (a + b)[0] == a[0] && (a + b)[1..] == a[1..] + b;
      WithoutBreaksAppend(a[1..], b);
    }
  }

  lemma BreakAlone(c: char)
    requires c == '\n' || c == '\r'
    ensures WithoutBreaks([c]) == ""
  {
    assert [c][1..] == "" && WithoutBreaks("") == "";
  }

  /** A line break is skipped wherever it stands. */
  lemma BreakIsSkipped(a: string, b: string, c: char)
    requires c == '\n' || c == '\r'
    ensures Decode(a + [c] + b) == Decode(a + b)
  {
    hide WithoutBreaks, DecodeQuads;
    WithoutBreaksAppend(a, b);
    WithoutBreaksAppend(a + [c], b);
    WithoutBreaksAppend(a, [c]);
    BreakAlone(c);
    assert WithoutBreaks(a + [c]) == WithoutBreaks(a);
  }

  lemma Base64RoundTrip(b: Bytes)
    ensures Decode(Encode(b)) == Some(b)
  {
    EncodeHasNoBreaks(b);
    NothingToSkip(Encode(b));
    QuadsRoundTrip(b);
  }

  // ---------- registry IDs ----------

  function BigEndian(n: nat, width: nat): (b: Bytes)
    ensures |b| == width
  {
    if width == 0 then [] else BigEndian(n / 256, width - 1) + [n % 256]
  }

  function FromBigEndian(b: Bytes): nat {
    if b == [] then 0 else FromBigEndian(b[..|b| - 1]) * 256 + b[|b| - 1]
  }

  function Span(width: nat): nat {
    if width == 0 then 1 else 256 * Span(width - 1)
  }

  lemma {:induction false} BigEndianRoundTrip(n: nat, width: nat)
    requires n < Span(width)
    ensures FromBigEndian(BigEndian(n, width)) == n
  {
    if width > 0 {
      assert n / 256 < Span(width - 1);
      var b := BigEndian(n, width);
      assert b[..width - 1] == BigEndian(n / 256, width - 1) && b[width - 1] == n % 256;
      BigEndianRoundTrip(n / 256, width - 1);
    }
  }

  lemma EightBytes()
    ensures Span(8) == UINT64_SPAN
  {
    assert Span(2) == 0x1_0000;
    assert Span(4) == 0x1_0000_0000;
    assert Span(6) == 0x1_0000_0000_0000;
  }

  function IDBytes(id: nat): (b: Bytes)
    ensures |b| == 8
  {
    BigEndian(id, 8)
  }

  /** The highest byte comes first. */
  lemma HighestByteFirst()
    ensures IDBytes(0x0102_0304_0506_0708) == [1, 2, 3, 4, 5, 6, 7, 8]
  {
    assert BigEndian(0x01, 1) == [1];
    assert BigEndian(0x0102_03, 3) == [1, 2, 3];
    assert BigEndian(0x0102_0304_05, 5) == [1, 2, 3, 4, 5];
    assert BigEndian(0x0102_0304_0506_07, 7) == [1, 2, 3, 4, 5, 6, 7];
  }

  lemma IDBytesRoundTrip(id: nat)
    requires id < UINT64_SPAN
    ensures FromBigEndian(IDBytes(id)) == id
  {
    EightBytes();
    BigEndianRoundTrip(id, 8);
  }

  // ---------- cursors ----------

  function EncodeCursor(b: Bytes): string {
    if b == [] then "" else Encode(b)
  }

  function CursorBytes(nextKey: string): Option<Bytes> {
    if nextKey == "" then Some([]) else Decode(nextKey)
  }

  lemma CursorRoundTrip(b: Bytes)
    ensures CursorBytes(EncodeCursor(b)) == Some(b)
    ensures EncodeCursor(b) == "" <==> b == []
  {
    Base64RoundTrip(b);
    EncodeHasNoBreaks(b);
  }

  datatype CursorError = InvalidCursor

  /** The caller's key as raw bytes; the empty sequence means no cursor. */
  function ListingCursor(key: string, offset: nat): Result<Bytes, CursorError> {
    if key == "" then Ok([])
    else if offset != 0 then Err(InvalidCursor)
    else
      match CursorBytes(key)
      case None => Err(InvalidCursor)
      case Some(b) => if |b| == 8 then Ok(b) else Err(InvalidCursor)
  }

  lemma {:induction false} BytesRoundTrip(b: Bytes)
    ensures FromBigEndian(b) < Span(|b|)
    ensures BigEndian(FromBigEndian(b), |b|) == b
  {
    if b != [] {
      var init, last := b[..|b| - 1], b[|b| - 1];
      BytesRoundTrip(init);
      assert b == init + [last];
      assert FromBigEndian(b) / 256 == FromBigEndian(init) && FromBigEndian(b) % 256 == last;
    }
  }

  /** No key is no cursor. A key is accepted exactly when it is a text for the cursor of some registry ID and no offset comes
      with it, and then it means that ID: nothing else gets through to the chain. */
  lemma ListingCursorIff(key: string, offset: nat)
    ensures ListingCursor("", offset) == Ok([])
    ensures key != "" ==>
              (ListingCursor(key, offset).Ok? <==>
               offset == 0 && exists id :: 0 <= id < UINT64_SPAN && Decode(key) == Some(IDBytes(id)))
    ensures forall id :: 0 <= id < UINT64_SPAN && ListingCursor(key, offset) == Ok(IDBytes(id)) ==>
              Decode(key) == Some(IDBytes(id)) && id == FromBigEndian(ListingCursor(key, offset).value)
  {
    hide Decode, BigEndian, FromBigEndian;
    if Decode(key).Some? && |Decode(key).value| == 8 {
      var b := Decode(key).value;
      BytesRoundTrip(b);
      EightBytes();
      assert Decode(key) == Some(IDBytes(FromBigEndian(b)));
    }
    forall id: nat | id < UINT64_SPAN
      ensures FromBigEndian(IDBytes(id)) == id
    {
      IDBytesRoundTrip(id);
    }
  }

  function CursorOf(id: nat): string {
    EncodeCursor(IDBytes(id))
  }

  /** Every cursor the listing hands out is accepted back, and names the same registry ID. */
  lemma HandedOutCursorIsAccepted(id: nat)
    requires id < UINT64_SPAN
    ensures CursorOf(id) != ""
    ensures ListingCursor(CursorOf(id), 0) == Ok(IDBytes(id))
    ensures FromBigEndian(IDBytes(id)) == id
  {
    CursorRoundTrip(IDBytes(id));
    IDBytesRoundTrip(id);
  }
}
