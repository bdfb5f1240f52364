/** Hex and bytes32 encoding of the extension's wire format, on bytes. */
module HexCodec {
  import opened Evm

  datatype HexError = OddLength | NonHex | TooLong
  datatype Decoded = Bytes(value: seq<uint8>) | Invalid(error: HexError)
  datatype Encoded = Text(value: string) | Rejected(error: HexError)

  const DIGITS: string := "0123456789abcdef"

  /** The value of a hex digit of either case. */
  function DigitValue(c: char): Option<nat>
  {
    if '0' <= c <= '9' then Some(c as nat - '0' as nat)
    else if 'a' <= c <= 'f' then Some(c as nat - 'a' as nat + 10)
    else if 'A' <= c <= 'F' then Some(c as nat - 'A' as nat + 10)
    else None
  }

  function LowerChar(c: char): char
  {
    if 'A' <= c <= 'Z' then (c as int + 32) as char else c
  }

  function Lower(s: string): (t: string)
    ensures |t| == |s| && forall i :: 0 <= i < |s| ==> t[i] == LowerChar(s[i])
  {
    seq(|s|, i requires 0 <= i < |s| => LowerChar(s[i]))
  }

  predicate AllHex(s: string) { forall i :: 0 <= i < |s| ==> DigitValue(s[i]).Some? }

  /** Two digits for each byte, most significant first. */
  function Digits(b: seq<uint8>): (s: string)
    ensures |s| == 2 * |b|
    ensures forall i :: 0 <= i < |b| ==> s[2 * i] == DIGITS[b[i] / 16] && s[2 * i + 1] == DIGITS[b[i] % 16]
  {
    seq(2 * |b|, k requires 0 <= k < 2 * |b| => if k % 2 == 0 then DIGITS[b[k / 2] / 16] else DIGITS[b[k / 2] % 16])
  }

  function ToHex(b: seq<uint8>): string { "0x" + Digits(b) }

  function StripPrefix(h: string): string
  {
    if |h| >= 2 && h[0] == '0' && (h[1] == 'x' || h[1] == 'X') then h[2..] else h
  }

  function ByteAt(s: string, i: nat): uint8
    requires 2 * i + 1 < |s| && AllHex(s)
  {
    DigitValue(s[2 * i]).value * 16 + DigitValue(s[2 * i + 1]).value
  }

  /** An absent string decodes like an empty one. */
  function FromHex(h: Option<string>): Decoded
  {
    var s := if h.Some? then StripPrefix(h.value) else "";
    if |s| % 2 != 0 then Invalid(OddLength)
    else if !AllHex(s) then Invalid(NonHex)
    else Bytes(seq(|s| / 2, i requires 0 <= i < |s| / 2 => ByteAt(s, i)))
  }

  lemma DigitRoundTrip(n: nat)
    requires n < 16
    ensures DigitValue(DIGITS[n]) == Some(n) && LowerChar(DIGITS[n]) == DIGITS[n]
  {
  }

  lemma ValueRoundTrip(c: char)
    requires DigitValue(c).Some?
    ensures DigitValue(c).value < 16 && DIGITS[DigitValue(c).value] == LowerChar(c)
  {
  }

  /** Decoding undoes encoding, for every byte array. */
  lemma DecodeEncode(b: seq<uint8>)
    ensures FromHex(Some(ToHex(b))) == Bytes(b)
  {
    var s := Digits(b);
    assert StripPrefix(ToHex(b)) == s;
    forall i | 0 <= i < |b|
      ensures DigitValue(s[2 * i]) == Some(b[i] / 16) && DigitValue(s[2 * i + 1]) == Some(b[i] % 16)
    {
      DigitRoundTrip(b[i] / 16);
      DigitRoundTrip(b[i] % 16);
    }
    forall k | 0 <= k < |s| ensures DigitValue(s[k]).Some? {
      assert k == 2 * (k / 2) || k == 2 * (k / 2) + 1;
    }
    forall i | 0 <= i < |b| ensures ByteAt(s, i) == b[i] { }
    assert FromHex(Some(ToHex(b))).value == b;
  }

  /** The two digits of a decoded byte, lower-cased. */
  lemma ByteDigits(s: string, i: nat)
    requires 2 * i + 1 < |s| && AllHex(s)
    ensures DIGITS[ByteAt(s, i) / 16] == LowerChar(s[2 * i]) && DIGITS[ByteAt(s, i) % 16] == LowerChar(s[2 * i + 1])
  {
    hide DigitValue, LowerChar;
    ValueRoundTrip(s[2 * i]);
    ValueRoundTrip(s[2 * i + 1]);
    SplitByte(DigitValue(s[2 * i]).value, DigitValue(s[2 * i + 1]).value);
  }

  lemma SplitByte(high: nat, low: nat)
    requires low < 16
    ensures (high * 16 + low) / 16 == high && (high * 16 + low) % 16 == low
  {
  }

  /**
   * Encoding what was decoded gives the canonical lower-case form with prefix: decoding accepts exactly its
   * spellings.
   */
  lemma EncodeDecode(h: string)
    requires FromHex(Some(h)).Bytes?
    ensures ToHex(FromHex(Some(h)).value) == "0x" + Lower(StripPrefix(h))
  {
    hide Digits, Lower, ByteAt, AllHex, StripPrefix;
    var s, b := StripPrefix(h), FromHex(Some(h)).value;
    forall k | 0 <= k < |s| ensures Digits(b)[k] == Lower(s)[k] {
      DecodedDigit(s, b, k);
    }
    assert Digits(b) == Lower(s);
  }

  lemma DecodedDigit(s: string, b: seq<uint8>, k: nat)
    requires AllHex(s) && |s| == 2 * |b| && k < |s| && b[k / 2] == ByteAt(s, k / 2)
    ensures Digits(b)[k] == Lower(s)[k]
  {
    hide ByteAt, AllHex, LowerChar, Digits;
    var i := k / 2;
    ByteDigits(s, i);
    assert k == 2 * i || k == 2 * i + 1;
  }

  /** Exactly which texts decode, and what is wrong with the others; no text at all decodes like an empty one. */
  lemma DecodesIff(h: string)
    ensures var s := StripPrefix(h);
            var digits := forall i :: 0 <= i < |s| ==> '0' <= s[i] <= '9' || 'a' <= s[i] <= 'f' || 'A' <= s[i] <= 'F';
            && (FromHex(Some(h)).Bytes? <==> |s| % 2 == 0 && digits)
            && (FromHex(Some(h)) == Invalid(OddLength) <==> |s| % 2 == 1)
            && (FromHex(Some(h)) == Invalid(NonHex) <==> |s| % 2 == 0 && !digits)
    ensures FromHex(None) == FromHex(Some("")) == Bytes([])
  {
    var s := StripPrefix(h);
    assert forall i :: 0 <= i < |s| ==>
      (DigitValue(s[i]).Some? <==> '0' <= s[i] <= '9' || 'a' <= s[i] <= 'f' || 'A' <= s[i] <= 'F');
  }

  // ---- The number that hex digits and bytes stand for ----

  function DigitsNumber(s: string): nat
    requires AllHex(s)
  {
    if |s| == 0 then 0 else DigitsNumber(s[..|s| - 1]) * 16 + DigitValue(s[|s| - 1]).value
  }

  function BytesNumber(b: seq<uint8>): nat
  {
    if |b| == 0 then 0 else BytesNumber(b[..|b| - 1]) * 256 + b[|b| - 1]
  }

  /**
   * Decoding keeps the number that the text is the hexadecimal, big-endian notation of, and takes two digits a byte.
   */
  lemma DecodeKeepsNumber(h: string)
    requires FromHex(Some(h)).Bytes?
    ensures var b, s := FromHex(Some(h)).value, StripPrefix(h);
            AllHex(s) && |s| == 2 * |b| && BytesNumber(b) == DigitsNumber(s)
  {
    hide DigitValue, StripPrefix;
    NumbersAgree(FromHex(Some(h)).value, StripPrefix(h));
  }

  lemma {:induction false} NumbersAgree(b: seq<uint8>, s: string)
    requires AllHex(s) && |s| == 2 * |b| && forall i :: 0 <= i < |b| ==> b[i] == ByteAt(s, i)
    ensures BytesNumber(b) == DigitsNumber(s)
  {
    hide DigitValue;
    if |b| > 0 {
      var n := |b| - 1;
      var front := s[..2 * n];
      assert forall i :: 0 <= i < n ==> ByteAt(front, i) == ByteAt(s, i);
      NumbersAgree(b[..n], front);
      assert s[..|s| - 1][..2 * n] == front && s[..|s| - 1][2 * n] == s[2 * n];
      TwoDigits(s, n);
    }
  }

  lemma TwoDigits(s: string, n: nat)
    requires AllHex(s) && |s| == 2 * n + 2
    ensures DigitsNumber(s) == DigitsNumber(s[..2 * n]) * 256 + ByteAt(s, n)
  {
    hide DigitValue;
    var t := s[..2 * n + 1];
    assert t[..2 * n] == s[..2 * n] && s[..|s| - 1] == t;
  }

  lemma DigitsAppend(b: seq<uint8>, i: nat)
    requires i < |b|
    ensures Digits(b[..i + 1]) == Digits(b[..i]) + [DIGITS[b[i] / 16], DIGITS[b[i] % 16]]
  {
    hide Digits;
    var longer, shorter := Digits(b[..i + 1]), Digits(b[..i]);
    forall k | 0 <= k < 2 * i ensures longer[k] == shorter[k] {
      var j := k / 2;
      assert longer[2 * j] == shorter[2 * j] && longer[2 * j + 1] == shorter[2 * j + 1];
    }
    assert longer[2 * i] == DIGITS[b[i] / 16] && longer[2 * i + 1] == DIGITS[b[i] % 16];
    assert longer == shorter + [DIGITS[b[i] / 16], DIGITS[b[i] % 16]];
  }

  /** Encoded digits are already lower case. */
  lemma DigitsLower(b: seq<uint8>, k: nat)
    requires k < 2 * |b|
    ensures LowerChar(Digits(b)[k]) == Digits(b)[k]
  {
    assert k == 2 * (k / 2) || k == 2 * (k / 2) + 1;
    DigitRoundTrip(b[k / 2] / 16);
    DigitRoundTrip(b[k / 2] % 16);
  }

  method BytesToHex(b: seq<uint8>) returns (s: string)
    ensures s == ToHex(b)
  {
    hide Digits;
    s := "0x";
    var i := 0;
    while i < |b|
      invariant 0 <= i <= |b|
      invariant s == "0x" + Digits(b[..i])
    {
      DigitsAppend(b, i);
      s := s + [DIGITS[b[i] / 16], DIGITS[b[i] % 16]];
      i := i + 1;
    }
    assert b[..|b|] == b;
  }

  method HexToBytes(h: Option<string>) returns (out: Decoded)
    ensures out == FromHex(h)
  {
    if h.None? { return Bytes([]); }
    var s := StripPrefix(h.value);
    if |s| == 0 { return Bytes([]); }
    if |s| % 2 != 0 { return Invalid(OddLength); }
    if exists k :: 0 <= k < |s| && DigitValue(s[k]).None? { return Invalid(NonHex); }
    var bytes := new uint8[|s| / 2];
    var i := 0;
    while i < bytes.Length
      invariant 0 <= i <= bytes.Length
      invariant forall k :: 0 <= k < i ==> bytes[k] == ByteAt(s, k)
    {
      bytes[i] := DigitValue(s[2 * i]).value * 16 + DigitValue(s[2 * i + 1]).value;
      i := i + 1;
    }
    assert bytes[..] == FromHex(h).value;
    return Bytes(bytes[..]);
  }

  // ---- bytes32 ----

  function Zeros(n: nat): seq<uint8> { seq(n, _ => 0) }

  /** Left-aligned in 32 bytes. */
  function Pad(s: seq<uint8>): seq<uint8>
    requires |s| <= 32
  {
    s + Zeros(32 - |s|)
  }

  /** 32 bytes: the string from the left, then zeros. */
  lemma PadLayout(s: seq<uint8>)
    requires |s| <= 32
    ensures |Pad(s)| == 32 && Pad(s)[..|s|] == s && forall i :: |s| <= i < 32 ==> Pad(s)[i] == 0
  {
  }

  function ToBytes32Hex(s: seq<uint8>): Encoded
  {
    if |s| > 32 then Rejected(TooLong) else Text(ToHex(Pad(s)))
  }

  /** The longest prefix that does not end in a zero byte. */
  function Trim(b: seq<uint8>): seq<uint8>
  {
    if |b| > 0 && b[|b| - 1] == 0 then Trim(b[..|b| - 1]) else b
  }

  predicate NoTrailingZero(s: seq<uint8>) { |s| > 0 ==> s[|s| - 1] != 0 }

  lemma {:induction false} TrimPadding(s: seq<uint8>, n: nat)
    ensures Trim(s + Zeros(n)) == Trim(s)
  {
    var b := s + Zeros(n);
    if n == 0 {
      assert b == s;
    } else {
      assert b[..|b| - 1] == s + Zeros(n - 1);
      TrimPadding(s, n - 1);
    }
  }

  lemma {:induction false} TrimIsPrefix(b: seq<uint8>)
    ensures Trim(b) <= b && NoTrailingZero(Trim(b)) && (Trim(b) == b <==> NoTrailingZero(b))
  {
    if |b| > 0 && b[|b| - 1] == 0 {
      TrimIsPrefix(b[..|b| - 1]);
    }
  }

  /** Malformed hex reads as the empty string. */
  function FromBytes32Hex(h: string): seq<uint8>
  {
    var b := FromHex(Some(h));
    if b.Bytes? then Trim(b.value) else []
  }

  /** What is read is the decoded bytes without their trailing zeros; malformed hex reads as nothing. */
  lemma ReadsTrimmed(h: string)
    ensures FromHex(Some(h)).Invalid? ==> FromBytes32Hex(h) == []
    ensures FromHex(Some(h)).Bytes? ==>
              var b, s := FromHex(Some(h)).value, FromBytes32Hex(h);
              s <= b && NoTrailingZero(s) && forall i :: |s| <= i < |b| ==> b[i] == 0
  {
    hide FromHex;
    if FromHex(Some(h)).Bytes? {
      TrimIsPrefix(FromHex(Some(h)).value);
      TrimsZeros(FromHex(Some(h)).value);
    }
  }

  lemma {:induction false} TrimsZeros(b: seq<uint8>)
    ensures |Trim(b)| <= |b| && forall i :: |Trim(b)| <= i < |b| ==> b[i] == 0
  {
    if |b| > 0 && b[|b| - 1] == 0 {
      TrimsZeros(b[..|b| - 1]);
      assert forall i :: 0 <= i < |b| - 1 ==> b[..|b| - 1][i] == b[i];
    }
  }

  /** The padded form reads back as the original exactly when that has at most 32 bytes and no trailing zero byte. */
  lemma {:induction false} Bytes32RoundTrip(s: seq<uint8>)
    ensures ToBytes32Hex(s).Text? && FromBytes32Hex(ToBytes32Hex(s).value) == s <==> |s| <= 32 && NoTrailingZero(s)
  {
    hide FromHex, ToHex, Trim;
    if |s| <= 32 {
      DecodeEncode(Pad(s));
      TrimPadding(s, 32 - |s|);
      TrimIsPrefix(s);
    }
  }

  /** Distinct names have distinct identifiers. */
  lemma {:induction false} IdentifiersDistinct(s: seq<uint8>, t: seq<uint8>)
    requires |s| <= 32 && |t| <= 32 && NoTrailingZero(s) && NoTrailingZero(t)
    requires ToBytes32Hex(s) == ToBytes32Hex(t)
    ensures s == t
  {
    Bytes32RoundTrip(s);
    Bytes32RoundTrip(t);
  }

  method StringToBytes32Hex(s: seq<uint8>) returns (out: Encoded)
    ensures out == ToBytes32Hex(s)
  {
    if |s| > 32 { return Rejected(TooLong); }
    var padded := new uint8[32](_ => 0);
    var i := 0;
    while i < |s|
      invariant 0 <= i <= |s|
      invariant forall k :: 0 <= k < 32 ==> padded[k] == if k < i then s[k] else 0
    {
      padded[i] := s[i];
      i := i + 1;
    }
    assert padded[..] == Pad(s);
    var h := BytesToHex(padded[..]);
    return Text(h);
  }

  method Bytes32HexToString(h: string) returns (s: seq<uint8>)
    ensures s == FromBytes32Hex(h)
  {
    hide FromHex;
    var decoded := HexToBytes(Some(h));
    match decoded {
      case Invalid(_) => return [];
      case Bytes(b) =>
        var end := |b|;
        assert b[..end] == b;
        while end > 0 && b[end - 1] == 0
          invariant 0 <= end <= |b|
          invariant Trim(b[..end]) == Trim(b)
        {
          assert b[..end][..end - 1] == b[..end - 1];
          end := end - 1;
        }
        return b[..end];
    }
  }
}
