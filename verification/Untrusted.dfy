/** internal/mcp/untrusted.go: capping user-supplied text on a rune boundary. */
module Untrusted {
  import opened Outcomes

  // ---------- UTF-8, section 4 of RFC 3629 ----------

  predicate IsTail(b: Byte) {
    0x80 <= b <= 0xBF
  }

  predicate RuneStart(b: Byte) {
    !IsTail(b)
  }

  /** How long the character at the front is; zero when the bytes begin with none. */
  function RuneLen(s: Bytes): (n: nat)
    ensures n <= |s| && n <= 4
  {
    if |s| == 0 then 0
    else if s[0] <= 0x7F then 1
    else if |s| >= 2 && 0xC2 <= s[0] <= 0xDF && IsTail(s[1]) then 2
    else if |s| >= 3 && IsTail(s[1]) && IsTail(s[2]) &&
            (|| (s[0] == 0xE0 && 0xA0 <= s[1])
             || 0xE1 <= s[0] <= 0xEC
             || (s[0] == 0xED && s[1] <= 0x9F)
             || 0xEE <= s[0] <= 0xEF) then 3
    else if |s| >= 4 && IsTail(s[1]) && IsTail(s[2]) && IsTail(s[3]) &&
            (|| (s[0] == 0xF0 && 0x90 <= s[1])
             || 0xF1 <= s[0] <= 0xF3
             || (s[0] == 0xF4 && s[1] <= 0x8F)) then 4
    else 0
  }

  predicate ValidUTF8(s: Bytes)
    decreases |s|
  {
    |s| == 0 || (RuneLen(s) > 0 && ValidUTF8(s[RuneLen(s)..]))
  }

  /** A character is recognized by its own bytes, whatever follows, and not by fewer. */
  lemma RuneLenOfPrefix(s: Bytes, k: nat)
    requires RuneLen(s) > 0 && k <= |s|
    ensures k >= RuneLen(s) ==> RuneLen(s[..k]) == RuneLen(s)
    ensures k < RuneLen(s) ==> RuneLen(s[..k]) == 0
    ensures 0 < k < RuneLen(s) ==> IsTail(s[k])
    ensures RuneStart(s[0])
  {
  }

  // ---------- the characters, section 3 of RFC 3629 ----------

  predicate IsScalar(cp: int) {
    0 <= cp < 0x110000 && !(0xD800 <= cp <= 0xDFFF)
  }

  function EncodeRune(cp: int): Bytes
    requires IsScalar(cp)
  {
    if cp < 0x80 then [cp]
    else if cp < 0x800 then [0xC0 + cp / 0x40, 0x80 + cp % 0x40]
    else if cp < 0x10000 then [0xE0 + cp / 0x1000, 0x80 + cp / 0x40 % 0x40, 0x80 + cp % 0x40]
    else [0xF0 + cp / 0x40000, 0x80 + cp / 0x1000 % 0x40, 0x80 + cp / 0x40 % 0x40, 0x80 + cp % 0x40]
  }

  /** The encoding of every character is recognized, whatever follows. */
  lemma EncodedIsRecognized(cp: int, rest: Bytes)
    requires IsScalar(cp)
    ensures RuneLen(EncodeRune(cp) + rest) == |EncodeRune(cp)|
  {
  }

  lemma LowSextet(q: int, d: int)
    requires 0 <= q && 0 <= d < 0x40
    ensures (q * 0x40 + d) / 0x40 == q && (q * 0x40 + d) % 0x40 == d
  {
  }

  lemma DivideTwice(n: int)
    requires n >= 0
    ensures n / 0x1000 == n / 0x40 / 0x40 && n / 0x40000 == n / 0x1000 / 0x40
  {
  }

  lemma Sextets(a: int, b: int, c: int, d: int)
    requires 0 <= a && 0 <= b < 0x40 && 0 <= c < 0x40 && 0 <= d < 0x40
    ensures var cp := a * 0x40000 + b * 0x1000 + c * 0x40 + d;
            && cp / 0x40000 == a && cp / 0x1000 % 0x40 == b && cp / 0x40 % 0x40 == c && cp % 0x40 == d
            && cp / 0x1000 == a * 0x40 + b && cp / 0x40 == (a * 0x40 + b) * 0x40 + c
  {
    var ab := a * 0x40 + b;
    var abc := ab * 0x40 + c;
    assert a * 0x40000 + b * 0x1000 + c * 0x40 + d == abc * 0x40 + d;
    LowSextet(a, b);
    LowSextet(ab, c);
    LowSextet(abc, d);
    DivideTwice(abc * 0x40 + d);
  }

  lemma RecognizedShort(s: Bytes) returns (cp: int)
    requires 1 <= RuneLen(s) <= 2
    ensures IsScalar(cp) && EncodeRune(cp) == s[..RuneLen(s)]
  {
    cp := s[0];
    if RuneLen(s) == 2 {
      var c, d := s[0] as int - 0xC0, s[1] as int - 0x80;
      Sextets(0, 0, c, d);
      cp := c * 0x40 + d;
    }
  }

  lemma RecognizedThree(s: Bytes) returns (cp: int)
    requires RuneLen(s) == 3
    ensures IsScalar(cp) && EncodeRune(cp) == s[..3]
  {
    var b, c, d := s[0] as int - 0xE0, s[1] as int - 0x80, s[2] as int - 0x80;
    Sextets(0, b, c, d);
    cp := b * 0x1000 + c * 0x40 + d;
    assert 0x800 <= cp < 0x10000 && !(0xD800 <= cp <= 0xDFFF);
    hide RuneLen;
  }

  lemma RecognizedFour(s: Bytes) returns (cp: int)
    requires RuneLen(s) == 4
    ensures IsScalar(cp) && EncodeRune(cp) == s[..4]
  {
    var a, b, c, d := s[0] as int - 0xF0, s[1] as int - 0x80, s[2] as int - 0x80, s[3] as int - 0x80;
    Sextets(a, b, c, d);
    cp := a * 0x40000 + b * 0x1000 + c * 0x40 + d;
    assert 0x10000 <= cp < 0x110000;
    hide RuneLen;
  }

  /** What is recognized is the encoding of a character. */
  lemma RecognizedIsEncoded(s: Bytes) returns (cp: int)
    requires RuneLen(s) > 0
    ensures IsScalar(cp) && EncodeRune(cp) == s[..RuneLen(s)]
  {
    hide RuneLen, EncodeRune;
    if RuneLen(s) <= 2 {
      cp := RecognizedShort(s);
    } else if RuneLen(s) == 3 {
      cp := RecognizedThree(s);
    } else {
      cp := RecognizedFour(s);
    }
  }

  /** In valid text, the places where a prefix is valid are exactly the places where a character starts: where
      there is no continuation byte. */
  lemma ValidPrefixIff(s: Bytes, k: nat)
    requires ValidUTF8(s) && k < |s|
    ensures ValidUTF8(s[..k]) <==> s[k] < 0x80 || s[k] >= 0xC0
  {
    ValidCutIff(s, k);
  }

  lemma {:induction false} ValidCutIff(s: Bytes, k: nat)
    requires ValidUTF8(s) && k < |s|
    ensures ValidUTF8(s[..k]) <==> RuneStart(s[k])
    decreases |s|
  {
    hide RuneLen;
    var n := RuneLen(s);
    RuneLenOfPrefix(s, k);
    if k >= n {
      ValidCutIff(s[n..], k - n);
      assert s[..k][n..] == s[n..][..k - n];
    }
  }

  lemma {:induction false} ValidConcat(a: Bytes, b: Bytes)
    requires ValidUTF8(a) && ValidUTF8(b)
    ensures ValidUTF8(a + b)
    decreases |a|
  {
    hide RuneLen;
    if |a| == 0 {
      assert a + b == b;
    } else {
      var n := RuneLen(a);
      RuneLenExtends(a, b);
      ValidConcat(a[n..], b);
      assert (a + b)[n..] == a[n..] + b;
    }
  }

  lemma RuneLenExtends(a: Bytes, b: Bytes)
    requires RuneLen(a) > 0
    ensures RuneLen(a + b) == RuneLen(a)
  {
  }

  // ---------- capping ----------

  /** The last place at or before maxBytes where a character may start. */
  function CutAt(s: Bytes, maxBytes: nat): (cut: nat)
    requires maxBytes < |s|
    ensures cut <= maxBytes && (cut == 0 || RuneStart(s[cut]))
    ensures forall k :: cut < k <= maxBytes ==> !RuneStart(s[k])
  {
    if maxBytes == 0 || RuneStart(s[maxBytes]) then maxBytes else CutAt(s, maxBytes - 1)
  }

  function Decimal(n: nat): (r: Bytes)
    ensures |r| > 0 && forall k :: 0 <= k < |r| ==> 48 <= r[k] <= 57
  {
    if n < 10 then [48 + n] else Decimal(n / 10) + [48 + n % 10]
  }

  function ASCII(s: string): Bytes
    requires forall k :: 0 <= k < |s| ==> s[k] as int < 128
  {
    seq(|s|, k requires 0 <= k < |s| => s[k] as int)
  }

  /** An ellipsis, then the length of the whole text. */
  function Marker(n: nat): Bytes {
    [0xE2, 0x80, 0xA6] + (ASCII("[truncated, ") + Decimal(n) + ASCII(" bytes]"))
  }

  function Capped(s: Bytes, maxBytes: nat): Bytes {
    if |s| <= maxBytes then s else s[..CutAt(s, maxBytes)] + Marker(|s|)
  }

  lemma {:induction false} ASCIIIsValid(s: Bytes)
    requires forall k :: 0 <= k < |s| ==> s[k] <= 0x7F
    ensures ValidUTF8(s)
    decreases |s|
  {
    if |s| > 0 {
      ASCIIIsValid(s[1..]);
    }
  }

  lemma MarkerIsValid(n: nat)
    ensures ValidUTF8(Marker(n))
  {
    var text := ASCII("[truncated, ") + Decimal(n) + ASCII(" bytes]");
    ASCIIIsValid(text);
    var dots: Bytes := [0xE2, 0x80, 0xA6];
    assert RuneLen(dots) == 3 && dots[3..] == [];
    assert ValidUTF8(dots);
    ValidConcat(dots, text);
  }

  /** Capping valid text gives valid text. It keeps the longest valid prefix within the cap, and drops
      three bytes of the cap at most. */
  lemma CappedIsValid(s: Bytes, maxBytes: nat)
    requires ValidUTF8(s)
    ensures ValidUTF8(Capped(s, maxBytes))
    ensures |s| > maxBytes ==>
              var cut := CutAt(s, maxBytes);
              && ValidUTF8(s[..cut])
              && (forall k :: cut < k <= maxBytes ==> !ValidUTF8(s[..k]))
              && maxBytes - cut <= 3
  {
    hide RuneLen, Marker;
    if |s| > maxBytes {
      var cut := CutAt(s, maxBytes);
      if cut > 0 {
        ValidPrefixIff(s, cut);
      }
      forall k | cut < k <= maxBytes
        ensures !ValidUTF8(s[..k])
      {
        ValidPrefixIff(s, k);
      }
      TailsAreFew(s, cut, maxBytes);
      MarkerIsValid(|s|);
      ValidConcat(s[..cut], Marker(|s|));
    }
  }

  /** In valid text at most three tail bytes follow each other. */
  lemma {:induction false} TailsAreFew(s: Bytes, cut: nat, end: nat)
    requires ValidUTF8(s) && cut <= end < |s|
    requires forall k :: cut < k <= end ==> IsTail(s[k])
    ensures end - cut <= 3
    decreases |s|
  {
    hide RuneLen;
    var n := RuneLen(s);
    if end >= n {
      RuneLenOfPrefix(s, n);
      if cut >= n {
        TailsAreFew(s[n..], cut - n, end - n);
      } else {
        assert s[n] == s[n..][0];
        RuneLenOfPrefix(s[n..], 0);
      }
    }
  }

  function ReadDecimal(digits: Bytes): int {
    if |digits| == 0 then 0 else ReadDecimal(digits[..|digits| - 1]) * 10 + digits[|digits| - 1] - 48
  }

  /** The marker states the length of the whole text. */
  lemma {:induction false} DecimalRoundTrip(n: nat)
    ensures ReadDecimal(Decimal(n)) == n
  {
    var d := Decimal(n);
    if n < 10 {
      assert d == [48 + n] && d[..0] == [];
    } else {
      assert d[..|d| - 1] == Decimal(n / 10);
      DecimalRoundTrip(n / 10);
    }
  }

  /** Of arbitrary bytes at most maxBytes are kept, from the front; the rest of the result is an ellipsis and
      the text "[truncated, N bytes]" where N is the length of the whole. */
  lemma CappedKeepsPrefix(s: Bytes, maxBytes: nat) returns (n: nat, digits: Bytes)
    ensures |s| <= maxBytes ==> Capped(s, maxBytes) == s
    ensures |s| > maxBytes ==>
              && n <= maxBytes
              && Capped(s, maxBytes) == s[..n] + ([0xE2, 0x80, 0xA6]
                                                  + ([91, 116, 114, 117, 110, 99, 97, 116, 101, 100, 44, 32] + digits
                                                     + [32, 98, 121, 116, 101, 115, 93]))
    ensures ReadDecimal(digits) == |s| && |digits| > 0 && (digits[0] == 48 ==> |digits| == 1)
    ensures forall k :: 0 <= k < |digits| ==> 48 <= digits[k] <= 57
  {
    n, digits := if |s| <= maxBytes then |s| else CutAt(s, maxBytes), Decimal(|s|);
    DecimalRoundTrip(|s|);
    NoLeadingZero(|s|);
    MarkerText(|s|);
    hide Marker, Decimal, ReadDecimal, CutAt;
  }

  lemma MarkerText(n: nat)
    ensures Marker(n) == [0xE2, 0x80, 0xA6]
                         + ([91, 116, 114, 117, 110, 99, 97, 116, 101, 100, 44, 32] + Decimal(n)
                            + [32, 98, 121, 116, 101, 115, 93])
  {
    hide Decimal;
    assert ASCII("[truncated, ") == [91, 116, 114, 117, 110, 99, 97, 116, 101, 100, 44, 32] by {
      assert "[truncated, " == ['[', 't', 'r', 'u', 'n', 'c', 'a', 't', 'e', 'd', ',', ' '];
    }
    assert ASCII(" bytes]") == [32, 98, 121, 116, 101, 115, 93] by {
      assert " bytes]" == [' ', 'b', 'y', 't', 'e', 's', ']'];
    }
  }

  lemma {:induction false} NoLeadingZero(n: nat)
    ensures Decimal(n)[0] == 48 <==> n == 0
  {
    if n >= 10 {
      NoLeadingZero(n / 10);
    }
  }

  method CapUntrusted(s: Bytes, maxBytes: nat) returns (r: Bytes)
    ensures r == Capped(s, maxBytes)
  {
    hide Marker;
    if |s| <= maxBytes {
      return s;
    }
    var cut := maxBytes;
    while cut > 0 && !RuneStart(s[cut])
      invariant 0 <= cut <= maxBytes && CutAt(s, cut) == CutAt(s, maxBytes)
    {
      cut := cut - 1;
    }
    r := s[..cut] + Marker(|s|);
  }
}
