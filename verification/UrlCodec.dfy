/** Percent-encoding of byte strings, as section 2.1 of RFC 3986 defines it. */
module UrlCodec {

  datatype Result = Ok(value: seq<bv8>) | LostPercent

  const PERCENT: bv8 := 37
  const PLUS: bv8 := 43
  const SPACE: bv8 := 32

  predicate IsDigit(c: bv8) {
    48 <= c <= 57
  }

  /** Letters, digits and the four marks - _ . ~ stay as they are. */
  predicate Unreserved(c: bv8) {
    IsDigit(c) || 65 <= c <= 90 || 97 <= c <= 122 || c == 45 || c == 95 || c == 46 || c == 126
  }

  function HexDigit(d: bv8): bv8 {
    if d < 10 then 48 + d else 55 + d
  }

  function EncodeByte(c: bv8): seq<bv8> {
    if Unreserved(c) then [c] else [PERCENT, HexDigit(c >> 4), HexDigit(c & 15)]
  }

  function Encode(s: seq<bv8>): seq<bv8> {
    if s == [] then [] else EncodeByte(s[0]) + Encode(s[1..])
  }

  function ToLower(c: bv8): bv8 {
    if 65 <= c <= 90 then c + 32 else c
  }

  /** The value of a hexadecimal digit; for any other byte the same sum, wrapped. */
  function FromHex(c: bv8): bv8 {
    if IsDigit(c) then c - 48 else ToLower(c) - 97 + 10
  }

  function HexByte(a: bv8, b: bv8): bv8 {
    (FromHex(a) << 4) | FromHex(b)
  }

  function Cons(c: bv8, r: Result): Result {
    if r.Ok? then Ok([c] + r.value) else LostPercent
  }

  /** A percent sign within the last two bytes is an error; one followed by a zero
      byte is passed over. */
  function Decode(s: seq<bv8>): Result
    decreases |s|
  {
    if s == [] then Ok([])
    else if s[0] == PERCENT then
      if |s| <= 2 then LostPercent
      else if s[1] != 0 && s[2] != 0 then Cons(HexByte(s[1], s[2]), Decode(s[3..]))
      else Decode(s[1..])
    else Cons(if s[0] == PLUS then SPACE else s[0], Decode(s[1..]))
  }

  lemma HexRoundTrip(c: bv8)
    ensures HexDigit(c >> 4) != 0 && HexDigit(c & 15) != 0
    ensures HexByte(HexDigit(c >> 4), HexDigit(c & 15)) == c
  {
  }

  /** Decoding undoes encoding, for every byte string. */
  lemma {:induction false} RoundTrip(s: seq<bv8>)
    ensures Decode(Encode(s)) == Ok(s)
  {
    if s != [] {
      var head, rest := EncodeByte(s[0]), Encode(s[1..]);
      var t := head + rest;
      RoundTrip(s[1..]);
      assert [s[0]] + s[1..] == s;
      if Unreserved(s[0]) {
        assert t[0] == s[0] && t[1..] == rest;
      } else {
        HexRoundTrip(s[0]);
        assert t[0] == PERCENT && t[1] == head[1] && t[2] == head[2] && t[3..] == rest;
      }
    }
  }

  // ----------------------------------------------------- the characters themselves

  /** Letters, digits and - _ . ~ as characters. */
  predicate IsPlain(c: char) {
    || 'A' <= c <= 'Z' || 'a' <= c <= 'z' || '0' <= c <= '9' || c == '-' || c == '_' || c == '.' || c == '~'
  }

  predicate IsUpperHex(c: char, d: int) {
    (0 <= d < 10 && c as int == '0' as int + d) || (10 <= d < 16 && c as int == 'A' as int + (d - 10))
  }

  predicate IsLowerHex(c: char, d: int) {
    10 <= d < 16 && c as int == 'a' as int + (d - 10)
  }

  lemma HexDigitIs(d: bv8)
    requires d < 16
    ensures IsUpperHex(HexDigit(d) as char, d as int)
  {
  }

  /** One byte: itself if it is a plain character, and else a percent sign and the two
      digits of its value in base 16, in upper case. */
  lemma EncodedByte(c: bv8)
    ensures if IsPlain(c as char) then EncodeByte(c) == [c]
            else |EncodeByte(c)| == 3 && EncodeByte(c)[0] as char == '%'
                 && IsUpperHex(EncodeByte(c)[1] as char, c as int / 16)
                 && IsUpperHex(EncodeByte(c)[2] as char, c as int % 16)
  {
    HexDigitIs(c >> 4);
    HexDigitIs(c & 15);
  }

  lemma {:induction false} EncodeConcat(a: seq<bv8>, b: seq<bv8>)
    ensures Encode(a + b) == Encode(a) + Encode(b)
    decreases |a|
  {
    if a == [] {
      assert a + b == b;
    } else {
      assert (a + b)[0] == a[0] && (a + b)[1..] == a[1..] + b;
      EncodeConcat(a[1..], b);
    }
  }

  /** Without a percent sign, decoding turns every plus into a space and changes nothing
      else. */
  lemma {:induction false} DecodesPlus(s: seq<bv8>)
    requires forall c :: c in s ==> c as char != '%'
    ensures Decode(s).Ok? && |Decode(s).value| == |s|
    ensures forall i :: 0 <= i < |s| ==>
                          Decode(s).value[i] as char == if s[i] as char == '+' then ' ' else s[i] as char
  {
    if s != [] {
      assert forall c :: c in s[1..] ==> c in s;
      DecodesPlus(s[1..]);
      assert s[0] in s && s[0] != PERCENT;
    }
  }

  /** A percent sign and two hexadecimal digits, of either case, become the byte of that
      value. */
  lemma DecodesHex(s: seq<bv8>, high: int, low: int)
    requires |s| >= 3 && s[0] as char == '%'
    requires IsUpperHex(s[1] as char, high) || IsLowerHex(s[1] as char, high)
    requires IsUpperHex(s[2] as char, low) || IsLowerHex(s[2] as char, low)
    ensures HexByte(s[1], s[2]) as int == 16 * high + low
    ensures Decode(s) == if Decode(s[3..]).Ok? then Ok([HexByte(s[1], s[2])] + Decode(s[3..]).value) else LostPercent
  {
    HexPair(s[1], s[2], high, low);
    DecodesPair(s);
  }

  lemma DecodesPair(s: seq<bv8>)
    requires |s| >= 3 && s[0] as char == '%' && s[1] != 0 && s[2] != 0
    ensures Decode(s) == if Decode(s[3..]).Ok? then Ok([HexByte(s[1], s[2])] + Decode(s[3..]).value) else LostPercent
  {
  }

  lemma HexPair(a: bv8, b: bv8, high: int, low: int)
    requires IsUpperHex(a as char, high) || IsLowerHex(a as char, high)
    requires IsUpperHex(b as char, low) || IsLowerHex(b as char, low)
    ensures a != 0 && b != 0 && HexByte(a, b) as int == 16 * high + low
  {
    HexValue(a, high);
    HexValue(b, low);
    Nibbles(FromHex(a), FromHex(b));
  }

  lemma HexValue(c: bv8, d: int)
    requires IsUpperHex(c as char, d) || IsLowerHex(c as char, d)
    ensures FromHex(c) as int == d && c != 0
  {
  }

  lemma Nibbles(a: bv8, b: bv8)
    requires a < 16 && b < 16
    ensures ((a << 4) | b) as int == 16 * (a as int) + b as int
  {
  }

  /** Decoding fails exactly at a percent sign with less than two bytes behind it, if none
      ahead of it takes that one in. */
  lemma LostPercentAtEnd(s: seq<bv8>)
    requires s != [] && s[0] as char == '%'
    ensures |s| <= 2 ==> Decode(s) == LostPercent
    ensures |s| > 2 && (s[1] == 0 || s[2] == 0) ==> Decode(s) == Decode(s[1..])
  {
  }

  // -------------------------------------------------------------- the loops

  method UrlEncode(value: seq<bv8>) returns (escaped: seq<bv8>)
    ensures escaped == Encode(value)
  {
    escaped := [];
    for i := 0 to |value|
      invariant escaped + Encode(value[i..]) == Encode(value)
    {
      var c := value[i];
      EncodeFrom(value, i, escaped);
      if Unreserved(c) {
        escaped := escaped + [c];
      } else {
        escaped := escaped + [PERCENT, HexDigit(c >> 4), HexDigit(c & 15)];
      }
    }
  }

  lemma EncodeFrom(value: seq<bv8>, i: nat, before: seq<bv8>)
    requires i < |value|
    ensures before + Encode(value[i..]) == before + EncodeByte(value[i]) + Encode(value[i + 1..])
  {
    assert value[i..][0] == value[i] && value[i..][1..] == value[i + 1..];
    var a, b := EncodeByte(value[i]), Encode(value[i + 1..]);
    assert before + (a + b) == before + a + b;
  }

  function Prepend(a: seq<bv8>, r: Result): Result {
    if r.Ok? then Ok(a + r.value) else LostPercent
  }

  lemma PrependCons(a: seq<bv8>, c: bv8, r: Result)
    ensures Prepend(a, Cons(c, r)) == Prepend(a + [c], r)
  {
    if r.Ok? {
      assert a + ([c] + r.value) == a + [c] + r.value;
    }
  }

  method UrlDecode(text: seq<bv8>) returns (r: Result)
    ensures r == Decode(text)
  {
    var escaped := [];
    var i := 0;
    assert text[0..] == text;
    assert Prepend([], Decode(text)) == Decode(text) by {
      assert Decode(text).Ok? ==> [] + Decode(text).value == Decode(text).value;
    }
    while i < |text|
      invariant 0 <= i <= |text|
      invariant Prepend(escaped, Decode(text[i..])) == Decode(text)
    {
      var c := text[i];
      ghost var rest := text[i..];
      assert rest[0] == c && rest[1..] == text[i + 1..];
      if c == PERCENT && |text| - i > 2 {
        assert rest[1] == text[i + 1] && rest[2] == text[i + 2] && rest[3..] == text[i + 3..];
        if text[i + 1] != 0 && text[i + 2] != 0 {
          var h := HexByte(text[i + 1], text[i + 2]);
          PrependCons(escaped, h, Decode(text[i + 3..]));
          escaped := escaped + [h];
          i := i + 2;
        }
      } else if c == PERCENT {
        return LostPercent;
      } else {
        var d := if c == PLUS then SPACE else c;
        PrependCons(escaped, d, Decode(text[i + 1..]));
        escaped := escaped + [d];
      }
      i := i + 1;
    }
    r := Ok(escaped);
  }
}
