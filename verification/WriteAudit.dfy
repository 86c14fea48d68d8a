/** internal/mcp/write_audit.go: what is written down about a broadcast. */
module WriteAudit {
  import opened Outcomes

  function HexDigit(d: int): (c: char)
    requires 0 <= d < 16
  {
    "0123456789abcdef"[d]
  }

  function HexValue(c: char): Option<int> {
    if '0' <= c <= '9' then Some(c as int - '0' as int)
    else if 'a' <= c <= 'f' then Some(c as int - 'a' as int + 10)
    else None
  }

  lemma HexDigitRoundTrip(d: int)
    requires 0 <= d < 16
    ensures HexValue(HexDigit(d)) == Some(d)
  {
    assert HexDigit(d) == (if d < 10 then '0' + d as char else 'a' + (d - 10) as char);
  }

  function HexEncode(b: Bytes): string {
    if b == [] then ""
    else [HexDigit(b[0] / 16), HexDigit(b[0] % 16)] + HexEncode(b[1..])
  }

  function ToLowerChar(c: char): char {
    if 'A' <= c <= 'Z' then c - 'A' + 'a' else c
  }

  function ToLower(s: string): string {
    seq(|s|, i requires 0 <= i < |s| => ToLowerChar(s[i]))
  }

  /** Two digits a byte, the high one first. */
  lemma {:induction false} HexAt(b: Bytes, k: nat)
    requires k < |b|
    ensures |HexEncode(b)| >= 2 * k + 2
    ensures HexEncode(b)[2 * k] == "0123456789abcdef"[b[k] / 16] && HexEncode(b)[2 * k + 1] == "0123456789abcdef"[b[k] % 16]
  {
    if k > 0 {
      HexAt(b[1..], k - 1);
    }
  }

  /** Letters from A to Z become lower case, and nothing else changes. */
  lemma LoweredAt(s: string, k: nat)
    requires k < |s|
    ensures |ToLower(s)| == |s|
    ensures ToLower(s)[k] as int == s[k] as int + if 65 <= s[k] as int <= 90 then 32 else 0
  {
  }

  lemma {:induction false} HexEncodeInjective(a: Bytes, b: Bytes)
    ensures |HexEncode(a)| == 2 * |a|
    ensures HexEncode(a) == HexEncode(b) ==> a == b
  {
    if a != [] {
      HexEncodeInjective(a[1..], if b == [] then [] else b[1..]);
    }
    if b != [] && a == [] {
      assert |HexEncode(b)| >= 2;
    }
    if a != [] && b != [] && HexEncode(a) == HexEncode(b) {
      HexDigitRoundTrip(a[0] / 16);
      HexDigitRoundTrip(a[0] % 16);
      HexDigitRoundTrip(b[0] / 16);
      HexDigitRoundTrip(b[0] % 16);
      assert HexEncode(a)[0] == HexEncode(b)[0] && HexEncode(a)[1] == HexEncode(b)[1];
      assert a[0] == b[0];
      assert HexEncode(a)[2..] == HexEncode(a[1..]) && HexEncode(b)[2..] == HexEncode(b[1..]);
      assert a == [a[0]] + a[1..] && b == [b[0]] + b[1..];
    }
  }

  function MethodSelectorOf(calldata: Bytes): string {
    if |calldata| < 4 then "" else "0x" + HexEncode(calldata[..4])
  }

  /** The selector of a method, as the ABI spells it. */
  function SelectorText(id: Bytes): string {
    "0x" + HexEncode(id)
  }

  /** A stored selector names a method exactly when the calldata begins with that method's four bytes. */
  lemma SelectorClassifies(calldata: Bytes, id: Bytes)
    requires |id| == 4
    ensures MethodSelectorOf(calldata) == SelectorText(id) <==> |calldata| >= 4 && calldata[..4] == id
  {
    if |calldata| >= 4 {
      var x, y := HexEncode(calldata[..4]), HexEncode(id);
      HexEncodeInjective(calldata[..4], id);
      assert ("0x" + x)[2..] == x && ("0x" + y)[2..] == y;
    }
  }

  lemma HexDigitIsLower(d: int)
    requires 0 <= d < 16
    ensures ToLowerChar(HexDigit(d)) == HexDigit(d)
  {
    assert HexDigit(d) == (if d < 10 then '0' + d as char else 'a' + (d - 10) as char);
  }

  lemma {:induction false} HexIsLower(b: Bytes, k: nat)
    requires k < |HexEncode(b)|
    ensures ToLowerChar(HexEncode(b)[k]) == HexEncode(b)[k]
  {
    HexDigitIsLower(b[0] / 16);
    HexDigitIsLower(b[0] % 16);
    if k >= 2 {
      assert HexEncode(b)[k] == HexEncode(b[1..])[k - 2];
      HexIsLower(b[1..], k - 2);
    }
  }

  /** Lower-casing a selector before it is stored changes nothing. */
  lemma StoredSelectorIsSelector(calldata: Bytes)
    ensures ToLower(MethodSelectorOf(calldata)) == MethodSelectorOf(calldata)
  {
    var s := MethodSelectorOf(calldata);
    forall k | 0 <= k < |s|
      ensures ToLowerChar(s[k]) == s[k]
    {
      if k >= 2 {
        assert s[k] == HexEncode(calldata[..4])[k - 2];
        HexIsLower(calldata[..4], k - 2);
      }
    }
  }
}
