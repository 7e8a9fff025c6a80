/** The base16 encoding, section 8 of RFC 4648, as package hex has it. */
module Base16 {
  import opened Common

  newtype Byte = x: int | 0 <= x < 256

  function HexDigit(n: int): char
    requires 0 <= n < 16
  {
    if n < 10 then '0' + n as char else 'a' + (n - 10) as char
  }

  /** Both letter cases are accepted when decoding. */
  function HexValue(c: char): Option<int> {
    if '0' <= c <= '9' then Some((c - '0') as int)
    else if 'a' <= c <= 'f' then Some((c - 'a') as int + 10)
    else if 'A' <= c <= 'F' then Some((c - 'A') as int + 10)
    else None
  }

  predicate IsHex(s: string) {
    forall i :: 0 <= i < |s| ==> HexValue(s[i]).Some?
  }

  function HexEncode(bs: seq<Byte>): (s: string)
    ensures |s| == 2 * |bs| && IsHex(s)
  {
    if bs == [] then ""
    else [HexDigit(bs[0] as int / 16), HexDigit(bs[0] as int % 16)] + HexEncode(bs[1..])
  }

  function HexDecode(s: string): Option<seq<Byte>> {
    if s == "" then Some([])
    else if |s| == 1 || HexValue(s[0]).None? || HexValue(s[1]).None? then None
    else
      match HexDecode(s[2..])
      case None => None
      case Some(rest) =>
        var n := HexValue(s[0]).value * 16 + HexValue(s[1]).value;
        if 0 <= n < 256 then Some([n as Byte] + rest) else None
  }

  lemma {:induction false} HexDecodeEncode(bs: seq<Byte>)
    ensures HexDecode(HexEncode(bs)) == Some(bs)
  {
    if bs != [] {
      var s := HexEncode(bs);
      assert s[2..] == HexEncode(bs[1..]);
      HexDecodeEncode(bs[1..]);
      assert bs == [bs[0]] + bs[1..];
    }
  }

  /** The digit c, in either case, stands for n. */
  predicate IsNibble(c: char, n: int) {
    0 <= n < 16 && (c == "0123456789abcdef"[n] || c == "0123456789ABCDEF"[n])
  }

  /** s is hexadecimal text for bs: two digits for each byte, the upper half first. */
  predicate HexText(s: string, bs: seq<Byte>) {
    |s| == 2 * |bs| &&
    forall i :: 0 <= i < |bs| ==> IsNibble(s[2 * i], bs[i] as int / 16) && IsNibble(s[2 * i + 1], bs[i] as int % 16)
  }

  lemma HexValueIff(c: char, n: int)
    ensures HexValue(c) == Some(n) <==> IsNibble(c, n)
  {
    var lower, upper := "0123456789abcdef", "0123456789ABCDEF";
    assert forall k :: 0 <= k < 10 ==> lower[k] == upper[k] == '0' + k as char;
    assert forall k :: 10 <= k < 16 ==> lower[k] == 'a' + (k - 10) as char && upper[k] == 'A' + (k - 10) as char;
  }

  lemma HexTextCons(s: string, b: Byte, bs: seq<Byte>)
    requires |s| >= 2
    ensures HexText(s, [b] + bs) <==>
            IsNibble(s[0], b as int / 16) && IsNibble(s[1], b as int % 16) && HexText(s[2..], bs)
  {
    var all := [b] + bs;
    if HexText(s, all) {
      forall i | 0 <= i < |bs|
        ensures IsNibble(s[2..][2 * i], bs[i] as int / 16) && IsNibble(s[2..][2 * i + 1], bs[i] as int % 16)
      {
        assert all[i + 1] == bs[i] && s[2 * (i + 1)] == s[2..][2 * i] && s[2 * (i + 1) + 1] == s[2..][2 * i + 1];
      }
      assert all[0] == b;
    }
    if IsNibble(s[0], b as int / 16) && IsNibble(s[1], b as int % 16) && HexText(s[2..], bs) {
      forall i | 0 <= i < |all|
        ensures IsNibble(s[2 * i], all[i] as int / 16) && IsNibble(s[2 * i + 1], all[i] as int % 16)
      {
        if i > 0 {
          assert all[i] == bs[i - 1] && s[2 * i] == s[2..][2 * (i - 1)] && s[2 * i + 1] == s[2..][2 * (i - 1) + 1];
        }
      }
    }
  }

  lemma NibbleRange(c: char)
    ensures HexValue(c).Some? ==> 0 <= HexValue(c).value < 16
  {
  }

  lemma PairValues(x: Option<int>, y: Option<int>, b: int)
    requires (x.Some? ==> 0 <= x.value < 16) && (y.Some? ==> 0 <= y.value < 16) && 0 <= b < 256
    ensures x.Some? && y.Some? && x.value * 16 + y.value == b <==> x == Some(b / 16) && y == Some(b % 16)
  {
  }

  lemma PairIff(c: char, d: char, b: Byte)
    ensures HexValue(c) == Some(b as int / 16) && HexValue(d) == Some(b as int % 16) <==>
            IsNibble(c, b as int / 16) && IsNibble(d, b as int % 16)
  {
    HexValueIff(c, b as int / 16);
    HexValueIff(d, b as int % 16);
  }

  /** The byte of two digits. */
  function PairByte(c: char, d: char): Option<Byte> {
    var x, y := HexValue(c), HexValue(d);
    if x.Some? && y.Some? && 0 <= x.value * 16 + y.value < 256 then Some((x.value * 16 + y.value) as Byte) else None
  }

  lemma PairByteIff(c: char, d: char, b: Byte)
    ensures PairByte(c, d) == Some(b) <==> IsNibble(c, b as int / 16) && IsNibble(d, b as int % 16)
  {
    NibbleRange(c);
    NibbleRange(d);
    PairValues(HexValue(c), HexValue(d), b as int);
    PairIff(c, d, b);
  }

  lemma HexDecodePair(s: string)
    requires |s| >= 2
    ensures var first, rest := PairByte(s[0], s[1]), HexDecode(s[2..]);
            HexDecode(s) == if first.Some? && rest.Some? then Some([first.value] + rest.value) else None
  {
    NibbleRange(s[0]);
    NibbleRange(s[1]);
  }

  lemma ConsEqual(b: Byte, rest: seq<Byte>, c: Byte, tail: seq<Byte>)
    ensures [b] + rest == [c] + tail <==> b == c && rest == tail
  {
    if [b] + rest == [c] + tail {
      assert ([b] + rest)[0] == ([c] + tail)[0];
      assert rest == ([b] + rest)[1..] == ([c] + tail)[1..] == tail;
    }
  }

  lemma HexDecodeStep(s: string, b: Byte, rest: seq<Byte>)
    requires |s| >= 2
    ensures HexDecode(s) == Some([b] + rest) <==>
            IsNibble(s[0], b as int / 16) && IsNibble(s[1], b as int % 16) && HexDecode(s[2..]) == Some(rest)
  {
    var first, tail := PairByte(s[0], s[1]), HexDecode(s[2..]);
    HexDecodePair(s);
    PairByteIff(s[0], s[1], b);
    if first.Some? && tail.Some? {
      ConsEqual(b, rest, first.value, tail.value);
    }
  }

  /** Decoding succeeds exactly on hexadecimal text, with the bytes it stands for. */
  lemma {:induction false} HexDecodeIff(s: string, bs: seq<Byte>)
    ensures HexDecode(s) == Some(bs) <==> HexText(s, bs)
    decreases |s|
  {
    if |s| >= 2 && bs != [] {
      assert bs == [bs[0]] + bs[1..];
      HexDecodeIff(s[2..], bs[1..]);
      HexDecodeStep(s, bs[0], bs[1..]);
      HexTextCons(s, bs[0], bs[1..]);
    }
  }

  /** Encoding writes hexadecimal text in lower case. */
  lemma {:induction false} HexEncodeText(bs: seq<Byte>)
    ensures HexText(HexEncode(bs), bs)
    ensures forall c :: c in HexEncode(bs) ==> '0' <= c <= '9' || 'a' <= c <= 'f'
  {
    HexDecodeEncode(bs);
    HexDecodeIff(HexEncode(bs), bs);
    if bs != [] {
      HexEncodeText(bs[1..]);
    }
  }
}
