/** Base64 as sections 4 and 5 of RFC 4648 define it, with '.' as the padding of
    the URL form, and the line-broken forms of PEM and MIME. Masks and shifts of
    unsigned bytes are written as quotients and remainders. */
module Base64 {

  type byte = x: int | 0 <= x < 256
  type digit = x: int | 0 <= x < 64

  datatype Result<T> = Ok(value: T) | Thrown

  /** n consecutive characters from c on. */
  function Row(c: char, n: nat): (s: string)
    requires c as int + n <= 128
    ensures |s| == n
  {
    seq(n, i requires 0 <= i < n => (c as int + i) as char)
  }

  /** The 64 characters: letters, digits, and two that depend on the form. */
  function Alphabet(url: bool): (s: string)
    ensures |s| == 64
  {
    Row('A', 26) + Row('a', 26) + Row('0', 10) + (if url then "-_" else "+/")
  }

  function Padding(url: bool): char {
    if url then '.' else '='
  }

  predicate IsPadding(c: char) {
    c == '=' || c == '.'
  }

  /** The position of a character in either alphabet. */
  function PosOfChar(c: char): Result<digit> {
    if 'A' <= c <= 'Z' then Ok(c as int - 'A' as int)
    else if 'a' <= c <= 'z' then Ok(c as int - 'a' as int + 26)
    else if '0' <= c <= '9' then Ok(c as int - '0' as int + 52)
    else if c == '+' || c == '-' then Ok(62)
    else if c == '/' || c == '_' then Ok(63)
    else Thrown
  }

  /** Looking up a position and finding the character again, in both alphabets. */
  lemma AlphabetInverse(url: bool, d: digit)
    ensures PosOfChar(Alphabet(url)[d]) == Ok(d)
    ensures !IsPadding(Alphabet(url)[d]) && Alphabet(url)[d] != '\n'
  {
  }

  // --------------------------------------------------------------- encoding

  /** The digits of one to three bytes; missing bytes count as zero. */
  function Digits(b: seq<byte>): (ds: seq<digit>)
    requires 1 <= |b| <= 3
    ensures |ds| == |b| + 1
  {
    if |b| == 1 then [b[0] / 4, b[0] % 4 * 16]
    else if |b| == 2 then [b[0] / 4, b[0] % 4 * 16 + b[1] / 16, b[1] % 16 * 4]
    else [b[0] / 4, b[0] % 4 * 16 + b[1] / 16, b[1] % 16 * 4 + b[2] / 64, b[2] % 64]
  }

  function Chars(ds: seq<digit>, url: bool): string {
    seq(|ds|, i requires 0 <= i < |ds| => Alphabet(url)[ds[i]])
  }

  /** Four characters for one to three bytes. */
  function EncodeBlock(b: seq<byte>, url: bool): (s: string)
    requires 1 <= |b| <= 3
    ensures |s| == 4
  {
    Chars(Digits(b), url) + seq(3 - |b|, i => Padding(url))
  }

  function Encode(b: seq<byte>, url: bool): string {
    if b == [] then ""
    else if |b| <= 3 then EncodeBlock(b, url)
    else EncodeBlock(b[..3], url) + Encode(b[3..], url)
  }

  /** The digits spell, in base 64, the number the bytes spell in base 256. */
  lemma DigitsKeepValue(b: seq<byte>)
    requires |b| == 3
    ensures var d: seq<int> := Digits(b);
            var c: seq<int> := b;
            262144 * d[0] + 4096 * d[1] + 64 * d[2] + d[3] == 65536 * c[0] + 256 * c[1] + c[2]
  {
  }

  /** Padded blocks spell the number with zero bytes in the missing places. */
  lemma ShortDigitsKeepValue(b: seq<byte>)
    requires 1 <= |b| <= 2
    ensures var full := b + seq(3 - |b|, i => 0 as byte);
            Digits(b) == Digits(full)[..|b| + 1] && forall i :: |b| < i < 4 ==> Digits(full)[i] == 0
  {
  }

  lemma {:induction false} EncodedLength(b: seq<byte>, url: bool)
    ensures |Encode(b, url)| == (|b| + 2) / 3 * 4
  {
    if |b| > 3 {
      EncodedLength(b[3..], url);
    }
  }

  // ----------------------------------------------------- the characters themselves

  /** The character that RFC 4648 gives for a digit, in its table 1 or, for URLs, 2. */
  predicate Spells(c: char, d: int, url: bool) {
    || (0 <= d < 26 && c as int == 'A' as int + d)
    || (26 <= d < 52 && c as int == 'a' as int + (d - 26))
    || (52 <= d < 62 && c as int == '0' as int + (d - 52))
    || (d == 62 && c == (if url then '-' else '+'))
    || (d == 63 && c == (if url then '_' else '/'))
  }

  lemma AlphabetSpells(url: bool, d: digit)
    ensures Spells(Alphabet(url)[d], d, url)
  {
  }

  /** Looking up a character succeeds exactly for those of the two alphabets, and gives
      the digit it stands for. */
  lemma PosOfCharIff(c: char, d: digit)
    ensures PosOfChar(c) == Ok(d) <==> Spells(c, d, false) || Spells(c, d, true)
  {
  }

  function ByteAt(b: seq<byte>, i: nat): int {
    if i < |b| then b[i] else 0
  }

  /** The bytes from k on, three of them, as a number in base 256. */
  function Number(b: seq<byte>, k: nat): int {
    65536 * ByteAt(b, k) + 256 * ByteAt(b, k + 1) + ByteAt(b, k + 2)
  }

  /** The i-th digit in base 64, four digits to three bytes. */
  function DigitAt(b: seq<byte>, i: nat): int {
    var n := Number(b, i / 4 * 3);
    if i % 4 == 0 then n / 262144 else if i % 4 == 1 then n / 4096 % 64 else if i % 4 == 2 then n / 64 % 64 else n % 64
  }

  lemma DigitsAre(b: seq<byte>, i: nat)
    requires 1 <= |b| <= 3 && i <= |b|
    ensures Digits(b)[i] == DigitAt(b, i)
  {
    var b0, b1, b2 := ByteAt(b, 0), ByteAt(b, 1), ByteAt(b, 2);
    DigitsOfNumber(b0 / 4, b0 % 4 * 16 + b1 / 16, b1 % 16 * 4 + b2 / 64, b2 % 64);
  }

  lemma DigitsOfNumber(d0: int, d1: int, d2: int, d3: int)
    requires 0 <= d0 < 64 && 0 <= d1 < 64 && 0 <= d2 < 64 && 0 <= d3 < 64
    ensures var n := 262144 * d0 + 4096 * d1 + 64 * d2 + d3;
            && n / 262144 == d0 && n / 4096 % 64 == d1 && n / 64 % 64 == d2 && n % 64 == d3
  {
    var n := 262144 * d0 + 4096 * d1 + 64 * d2 + d3;
    RemainderIs(n, d0, 4096 * d1 + 64 * d2 + d3, 262144);
    RemainderIs(n, 64 * d0 + d1, 64 * d2 + d3, 4096);
    RemainderIs(64 * d0 + d1, d0, d1, 64);
    RemainderIs(n, 4096 * d0 + 64 * d1 + d2, d3, 64);
    RemainderIs(4096 * d0 + 64 * d1 + d2, 64 * d0 + d1, d2, 64);
  }

  lemma DigitAhead(b: seq<byte>, i: nat)
    requires |b| >= 3 && i >= 4
    ensures DigitAt(b, i) == DigitAt(b[3..], i - 4)
  {
    assert i / 4 * 3 == (i - 4) / 4 * 3 + 3;
  }

  lemma BlockDigit(b: seq<byte>, i: nat)
    requires |b| >= 3 && i < 4
    ensures DigitAt(b[..3], i) == DigitAt(b, i)
  {
  }

  /** How many characters of padding the encoding ends in. */
  function PaddingLength(b: seq<byte>): nat {
    (3 - |b| % 3) % 3
  }

  lemma BlockChars(b: seq<byte>, url: bool, i: nat)
    requires 1 <= |b| <= 3 && i < 4
    ensures if i <= |b| then Spells(EncodeBlock(b, url)[i], DigitAt(b, i), url)
            else EncodeBlock(b, url)[i] == (if url then '.' else '=')
  {
    if i <= |b| {
      DigitsAre(b, i);
      AlphabetSpells(url, Digits(b)[i]);
    }
  }

  /** At place i of n: padding at the end, '=' in the plain form and '.' in the URL form,
      and before it the base-64 digits of the bytes. */
  predicate RightChar(c: char, b: seq<byte>, i: nat, n: nat, url: bool) {
    if i < n - PaddingLength(b) then Spells(c, DigitAt(b, i), url) else c == (if url then '.' else '=')
  }

  lemma FirstChars(b: seq<byte>, url: bool, i: nat, n: nat)
    requires |b| > 3 && i < 4 && n >= 8
    ensures RightChar(EncodeBlock(b[..3], url)[i], b, i, n, url)
  {
    BlockChars(b[..3], url, i);
    BlockDigit(b, i);
  }

  lemma LaterChar(c: char, b: seq<byte>, i: nat, n: nat, url: bool)
    requires |b| > 3 && i >= 4 && n >= 8 && RightChar(c, b[3..], i - 4, n - 4, url)
    ensures RightChar(c, b, i, n, url)
  {
    SameRemainder(|b|);
    DigitAhead(b, i);
  }

  /** Every character of the encoding is the right one. */
  lemma {:induction false} EncodedChars(b: seq<byte>, url: bool, i: nat)
    requires i < |Encode(b, url)|
    ensures RightChar(Encode(b, url)[i], b, i, |Encode(b, url)|, url)
    decreases |b|
  {
    if |b| <= 3 {
      BlockChars(b, url, i);
    } else {
      EncodeTail(b, url, i);
      if i < 4 {
        FirstChars(b, url, i, |Encode(b, url)|);
      } else {
        EncodedChars(b[3..], url, i - 4);
        LaterChar(Encode(b, url)[i], b, i, |Encode(b, url)|, url);
      }
    }
  }

  lemma EncodeTail(b: seq<byte>, url: bool, i: nat)
    requires |b| > 3 && i < |Encode(b, url)|
    ensures |Encode(b, url)| == 4 + |Encode(b[3..], url)| && |Encode(b[3..], url)| >= 4
    ensures Encode(b, url)[i] == if i < 4 then EncodeBlock(b[..3], url)[i] else Encode(b[3..], url)[i - 4]
  {
    EncodedLength(b[3..], url);
    EncodeIs(b, url, EncodeBlock(b[..3], url), Encode(b[3..], url));
  }

  lemma SameRemainder(n: int)
    ensures n % 3 == (n - 3) % 3
  {
  }

  lemma EncodeIs(b: seq<byte>, url: bool, head: string, tail: string)
    requires |b| > 3 && head == EncodeBlock(b[..3], url) && tail == Encode(b[3..], url)
    ensures Encode(b, url) == head + tail && |head| == 4
  {
  }

  // --------------------------------------------------------------- decoding

  /** A string ends in a null character that may be read. */
  function At(s: string, i: nat): char
    requires i <= |s|
  {
    if i < |s| then s[i] else '\0'
  }

  /** The byte made of the low bits of one digit and the high bits of the next. */
  function Join(high: digit, low: digit, split: int): byte
    requires split == 16 || split == 4 || split == 1
  {
    var h, l: int := high, low;
    h % (4 * split) * (64 / split) + l / split
  }

  /** The bytes that two to four digits stand for; left-over bits are dropped. */
  function Bytes(d: seq<digit>): (b: seq<byte>)
    requires 2 <= |d| <= 4
    ensures |b| == |d| - 1
  {
    [Join(d[0], d[1], 16)]
    + (if |d| > 2 then [Join(d[1], d[2], 4)] else [])
    + (if |d| > 3 then [Join(d[2], d[3], 1)] else [])
  }

  /** The bytes of one group of at most four characters; the second digit is
      looked up first. */
  function DecodeBlock(s: string): (r: Result<seq<byte>>)
    requires 1 <= |s| <= 4
    ensures r.Ok? ==> 1 <= |r.value| <= 3
  {
    var p1 := PosOfChar(At(s, 1));
    var p0 := PosOfChar(s[0]);
    if p1.Thrown? || p0.Thrown? then Thrown
    else if |s| < 3 then Thrown
    else if IsPadding(s[2]) then Ok(Bytes([p0.value, p1.value]))
    else
      var p2 := PosOfChar(s[2]);
      if p2.Thrown? then Thrown
      else if IsPadding(At(s, 3)) then Ok(Bytes([p0.value, p1.value, p2.value]))
      else
        var p3 := PosOfChar(At(s, 3));
        if p3.Thrown? then Thrown else Ok(Bytes([p0.value, p1.value, p2.value, p3.value]))
  }

  function Append(a: Result<seq<byte>>, b: Result<seq<byte>>): Result<seq<byte>> {
    if a.Ok? && b.Ok? then Ok(a.value + b.value) else Thrown
  }

  lemma AppendLaws(a: Result<seq<byte>>, b: Result<seq<byte>>, c: Result<seq<byte>>)
    ensures Append(Ok([]), a) == a && Append(a, Ok([])) == a
    ensures Append(Append(a, b), c) == Append(a, Append(b, c))
  {
    if a.Ok? {
      assert [] + a.value == a.value && a.value + [] == a.value;
      if b.Ok? && c.Ok? {
        assert a.value + b.value + c.value == a.value + (b.value + c.value);
      }
    }
  }

  function Decode(s: string): Result<seq<byte>> {
    if s == "" then Ok([])
    else if |s| <= 4 then DecodeBlock(s)
    else Append(DecodeBlock(s[..4]), Decode(s[4..]))
  }

  predicate IsDigitChar(c: char) {
    exists d: digit :: Spells(c, d, false) || Spells(c, d, true)
  }

  lemma DigitCharIff(c: char)
    ensures IsDigitChar(c) <==> PosOfChar(c).Ok?
  {
    if PosOfChar(c).Ok? {
      PosOfCharIff(c, PosOfChar(c).value);
    }
    forall d: digit | Spells(c, d, false) || Spells(c, d, true)
      ensures PosOfChar(c).Ok?
    {
      PosOfCharIff(c, d);
    }
  }

  /** The group from k on starts with two digits; the third character is padding, of
      either form, or a digit, and then so is the fourth. */
  predicate GroupIsRight(s: string, k: nat) {
    && k + 2 < |s| && IsDigitChar(s[k]) && IsDigitChar(s[k + 1])
    && (|| s[k + 2] == '=' || s[k + 2] == '.'
        || (IsDigitChar(s[k + 2]) && k + 3 < |s| && (s[k + 3] == '=' || s[k + 3] == '.' || IsDigitChar(s[k + 3]))))
  }

  lemma BlockDecodesIff(s: string)
    requires 1 <= |s| <= 4
    ensures DecodeBlock(s).Ok? <==> GroupIsRight(s, 0)
  {
    DigitCharIff(At(s, 0));
    DigitCharIff(At(s, 1));
    if |s| >= 3 {
      DigitCharIff(s[2]);
      DigitCharIff(At(s, 3));
      DigitCharIff('\0');
      assert !IsDigitChar('\0');
    }
  }

  /** Decoding throws exactly unless every group of four characters is right; padding
      inside the string is accepted, and a group may lack its second padding. */
  lemma {:induction false} DecodesIff(s: string)
    ensures Decode(s).Ok? <==> forall k :: 0 <= k && 4 * k < |s| ==> GroupIsRight(s, 4 * k)
    decreases |s|
  {
    if s != "" {
      if |s| <= 4 {
        BlockDecodesIff(s);
        assert forall k :: 0 <= k && 4 * k < |s| ==> k == 0;
        assert GroupIsRight(s, 4 * 0) == GroupIsRight(s, 0);
      } else {
        DecodesLater(s);
      }
    }
  }

  lemma {:induction false} DecodesLater(s: string)
    requires |s| > 4
    ensures Decode(s).Ok? <==> forall k :: 0 <= k && 4 * k < |s| ==> GroupIsRight(s, 4 * k)
    decreases |s|, 0
  {
    var rest := s[4..];
    BlockDecodesIff(s[..4]);
    DecodesIff(rest);
    assert GroupIsRight(s[..4], 0) == GroupIsRight(s, 4 * 0);
    assert forall k :: 0 <= k && 4 * k < |rest| ==> (GroupIsRight(rest, 4 * k) <==> GroupIsRight(s, 4 * (k + 1)));
    if forall k :: 0 <= k && 4 * k < |s| ==> GroupIsRight(s, 4 * k) {
      forall k | 0 <= k && 4 * k < |rest|
        ensures GroupIsRight(rest, 4 * k)
      {
        assert GroupIsRight(s, 4 * (k + 1));
      }
    }
    if GroupIsRight(s, 0) && forall k :: 0 <= k && 4 * k < |rest| ==> GroupIsRight(rest, 4 * k) {
      forall k | 0 <= k && 4 * k < |s|
        ensures GroupIsRight(s, 4 * k)
      {
        assert k > 0 ==> GroupIsRight(rest, 4 * (k - 1));
      }
    }
  }

  /** Four digits spell the number their three bytes spell; of fewer the bits that make no
      whole byte are dropped. */
  lemma BytesKeepValue(d: seq<digit>)
    requires 2 <= |d| <= 4
    ensures var n := 262144 * d[0] as int + 4096 * d[1] as int
                     + (if |d| > 2 then 64 * d[2] as int else 0) + (if |d| > 3 then d[3] as int else 0);
            var b := Bytes(d);
            && b[0] == n / 65536 && (|d| > 2 ==> b[1] == n / 256 % 256) && (|d| > 3 ==> b[2] == n % 256)
  {
    BytesOfNumber(d[0], d[1], if |d| > 2 then d[2] else 0, if |d| > 3 then d[3] else 0);
  }

  lemma BytesOfNumber(d0: int, d1: int, d2: int, d3: int)
    requires 0 <= d0 < 64 && 0 <= d1 < 64 && 0 <= d2 < 64 && 0 <= d3 < 64
    ensures var n := 262144 * d0 + 4096 * d1 + 64 * d2 + d3;
            && d0 % 64 * 4 + d1 / 16 == n / 65536 && d1 % 16 * 16 + d2 / 4 == n / 256 % 256
            && d2 % 4 * 64 + d3 == n % 256
  {
    NumberOfBytes(d0 * 4 + d1 / 16, d1 % 16 * 16 + d2 / 4, d2 % 4 * 64 + d3);
  }

  lemma NumberOfBytes(b0: int, b1: int, b2: int)
    requires 0 <= b0 < 256 && 0 <= b1 < 256 && 0 <= b2 < 256
    ensures var n := 65536 * b0 + 256 * b1 + b2;
            n / 65536 == b0 && n / 256 % 256 == b1 && n % 256 == b2
  {
    var n := 65536 * b0 + 256 * b1 + b2;
    RemainderIs(n, b0, 256 * b1 + b2, 65536);
    RemainderIs(n, 256 * b0 + b1, b2, 256);
    RemainderIs(256 * b0 + b1, b0, b1, 256);
  }

  /** A byte from its upper six and lower two bits. */
  lemma JoinFirst(b: byte, x: int)
    requires 0 <= x < 16
    ensures Join(b / 4, b % 4 * 16 + x, 16) == b
  {
  }

  /** A byte from its upper and lower four bits. */
  lemma JoinSecond(a: int, b: byte, x: int)
    requires 0 <= a < 4 && 0 <= x < 4
    ensures Join(a * 16 + b / 16, b % 16 * 4 + x, 4) == b
  {
    var q, r := b / 16, b % 16;
    assert (a * 16 + q) % 16 == q;
    assert (r * 4 + x) / 4 == r;
  }

  /** A byte from its upper two and lower six bits. */
  lemma JoinThird(a: int, b: byte)
    requires 0 <= a < 16
    ensures Join(a * 4 + b / 64, b % 64, 1) == b
  {
  }

  /** Digits and bytes are inverse to each other. */
  lemma DigitsRoundTrip(b: seq<byte>)
    requires 1 <= |b| <= 3
    ensures Bytes(Digits(b)) == b
  {
    JoinFirst(b[0], if |b| > 1 then b[1] / 16 else 0);
    if |b| > 1 {
      JoinSecond(b[0] % 4, b[1], if |b| > 2 then b[2] / 64 else 0);
    }
    if |b| > 2 {
      JoinThird(b[1] % 16, b[2]);
    }
  }

  lemma EncodedChar(b: seq<byte>, url: bool, i: nat)
    requires 1 <= |b| <= 3 && i < 4
    ensures i < |b| + 1 ==> EncodeBlock(b, url)[i] == Alphabet(url)[Digits(b)[i]]
    ensures i < |b| + 1 ==> PosOfChar(EncodeBlock(b, url)[i]) == Ok(Digits(b)[i])
    ensures i < |b| + 1 <==> !IsPadding(EncodeBlock(b, url)[i])
  {
    if i < |b| + 1 {
      AlphabetInverse(url, Digits(b)[i]);
    }
  }

  lemma BlockRoundTrip(b: seq<byte>, url: bool)
    requires 1 <= |b| <= 3
    ensures DecodeBlock(EncodeBlock(b, url)) == Ok(b)
  {
    EncodedChar(b, url, 0);
    EncodedChar(b, url, 1);
    EncodedChar(b, url, 2);
    EncodedChar(b, url, 3);
    var d := Digits(b);
    assert d == if |b| == 1 then [d[0], d[1]] else if |b| == 2 then [d[0], d[1], d[2]] else [d[0], d[1], d[2], d[3]];
    DigitsRoundTrip(b);
  }

  /** Decoding undoes encoding, for every byte string and both forms. */
  lemma {:induction false} RoundTrip(b: seq<byte>, url: bool)
    ensures Decode(Encode(b, url)) == Ok(b)
  {
    if b != [] {
      if |b| <= 3 {
        BlockRoundTrip(b, url);
      } else {
        var s, t := EncodeBlock(b[..3], url), Encode(b[3..], url);
        BlockRoundTrip(b[..3], url);
        RoundTrip(b[3..], url);
        EncodedLength(b[3..], url);
        assert (s + t)[..4] == s && (s + t)[4..] == t;
        assert b[..3] + b[3..] == b;
      }
    }
  }

  // ------------------------------------------------------------ line breaks

  /** Lines of exactly the given length, the last one shorter or equal. */
  function BreakLines(s: string, distance: nat): string
    requires distance > 0
  {
    if |s| <= distance then s else s[..distance] + "\n" + BreakLines(s[distance..], distance)
  }

  function Strip(s: string): string {
    if s == "" then "" else if s[0] == '\n' then Strip(s[1..]) else [s[0]] + Strip(s[1..])
  }

  /** Stripping goes character by character, and takes line breaks only. */
  lemma StripOne(c: char)
    ensures Strip([c]) == if c == '\n' then "" else [c]
  {
    assert [c][1..] == "";
  }

  lemma {:induction false} StripConcat(a: string, b: string)
    ensures Strip(a + b) == Strip(a) + Strip(b)
  {
    if a == "" {
      assert a + b == b;
    } else {
      assert (a + b)[0] == a[0] && (a + b)[1..] == a[1..] + b;
      StripConcat(a[1..], b);
    }
  }

  lemma {:induction false} StripNothing(s: string)
    requires '\n' !in s
    ensures Strip(s) == s
  {
    if s != "" {
      StripNothing(s[1..]);
    }
  }

  /** Removing the line breaks gives the string back. */
  lemma StripLine(line: string)
    requires '\n' !in line
    ensures Strip(line + "\n") == line
  {
    StripConcat(line, "\n");
    StripNothing(line);
    assert "\n"[1..] == "";
    assert Strip("\n") == "";
  }

  lemma StripFirstLine(line: string, rest: string)
    requires '\n' !in line
    ensures Strip(line + "\n" + rest) == line + Strip(rest)
  {
    StripConcat(line + "\n", rest);
    StripLine(line);
  }

  lemma {:induction false} StripUndoesBreaking(s: string, distance: nat)
    requires distance > 0 && '\n' !in s
    ensures Strip(BreakLines(s, distance)) == s
  {
    if |s| <= distance {
      StripNothing(s);
    } else {
      var line, rest := s[..distance], s[distance..];
      assert s == line + rest;
      StripUndoesBreaking(rest, distance);
      StripFirstLine(line, BreakLines(rest, distance));
    }
  }

  lemma Multiple(m: nat, n: int)
    requires 0 < n
    ensures m * n >= m
  {
    assert m * n == m * (n - 1) + m;
  }

  lemma RemainderIs(a: int, q: int, r: nat, m: nat)
    requires r < m && a == m * q + r
    ensures a / m == q && a % m == r
  {
    var p, t := a / m, a % m;
    assert a == m * p + t;
    assert m * (p - q) == m * p - m * q == -(m * (q - p));
    if p > q {
      Multiple(m, p - q);
    } else if q > p {
      Multiple(m, q - p);
    }
  }

  /** The column in a line of m characters is the same one line further. */
  lemma ColumnAhead(i: nat, m: nat)
    requires 0 < m <= i
    ensures (i - m) % m == i % m
  {
    var q := i / m;
    assert m * (q - 1) == m * q - m;
    RemainderIs(i - m, q - 1, i % m, m);
  }

  /** Breaks stand exactly at the end of every full line that is not the last. */
  lemma {:induction false} BreaksAtLineEnds(s: string, distance: nat, i: nat)
    requires distance > 0 && '\n' !in s && i < |BreakLines(s, distance)|
    ensures BreakLines(s, distance)[i] == '\n' <==> i % (distance + 1) == distance
    ensures BreakLines(s, distance)[|BreakLines(s, distance)| - 1] != '\n'
  {
    if |s| > distance {
      var m := distance + 1;
      var rest := BreakLines(s[distance..], distance);
      assert rest != "";
      if i < m {
        BreaksAtLineEnds(s[distance..], distance, 0);
      } else {
        assert BreakLines(s, distance)[i] == rest[i - m];
        BreaksAtLineEnds(s[distance..], distance, i - m);
        ColumnAhead(i, m);
      }
    }
  }

  lemma {:induction false} EncodedHasNoBreaks(b: seq<byte>, url: bool)
    ensures '\n' !in Encode(b, url)
  {
    if b != [] {
      var head := if |b| <= 3 then b else b[..3];
      forall i | 0 <= i < 4
        ensures EncodeBlock(head, url)[i] != '\n'
      {
        if i < |head| + 1 {
          AlphabetInverse(url, Digits(head)[i]);
          EncodedChar(head, url, i);
        }
      }
      if |b| > 3 {
        EncodedHasNoBreaks(b[3..], url);
      }
    }
  }

  /** The broken forms, 64 columns for PEM and 76 for MIME, decode to the bytes
      once line breaks are removed. */
  lemma BrokenRoundTrip(b: seq<byte>, distance: nat)
    requires distance > 0
    ensures Decode(Strip(BreakLines(Encode(b, false), distance))) == Ok(b)
  {
    EncodedHasNoBreaks(b, false);
    StripUndoesBreaking(Encode(b, false), distance);
    RoundTrip(b, false);
  }

  // -------------------------------------------------------------- the loops

  /** The bytes from pos on that make one block. */
  function Group(bytes: seq<byte>, pos: nat): (b: seq<byte>)
    requires pos < |bytes|
    ensures 1 <= |b| <= 3
  {
    if |bytes| - pos <= 3 then bytes[pos..] else bytes[pos..pos + 3]
  }

  /** The digits of the bytes from pos, as many as there are. */
  method GroupDigits(bytes: seq<byte>, pos: nat) returns (ds: seq<digit>)
    requires pos < |bytes|
    ensures ds == Digits(Group(bytes, pos))
  {
    var b0 := bytes[pos];
    if pos + 1 < |bytes| {
      var b1 := bytes[pos + 1];
      if pos + 2 < |bytes| {
        var b2 := bytes[pos + 2];
        ds := [b0 / 4, b0 % 4 * 16 + b1 / 16, b1 % 16 * 4 + b2 / 64, b2 % 64];
      } else {
        ds := [b0 / 4, b0 % 4 * 16 + b1 / 16, b1 % 16 * 4];
      }
    } else {
      ds := [b0 / 4, b0 % 4 * 16];
    }
  }

  /** One round of the encoding loop: the four characters for the bytes from pos. */
  method EncodeGroup(bytes: seq<byte>, pos: nat, chars: string, padding: char, ghost url: bool)
    returns (ret: string)
    requires pos < |bytes| && chars == Alphabet(url) && padding == Padding(url)
    ensures ret == EncodeBlock(Group(bytes, pos), url)
  {
    var ds := GroupDigits(bytes, pos);
    ret := seq(|ds|, i requires 0 <= i < |ds| => chars[ds[i]]) + seq(4 - |ds|, i => padding);
  }

  /** The encoding of what is left from pos on. */
  function EncodeFrom(bytes: seq<byte>, pos: nat, url: bool): string {
    if pos < |bytes| then Encode(bytes[pos..], url) else ""
  }

  lemma EncodeNext(bytes: seq<byte>, pos: nat, url: bool, ret: string)
    requires pos < |bytes|
    ensures ret + EncodeFrom(bytes, pos, url)
            == ret + EncodeBlock(Group(bytes, pos), url) + EncodeFrom(bytes, pos + 3, url)
  {
    EncodeSplit(bytes[pos..], Group(bytes, pos), bytes, pos, url);
    Associates(ret, EncodeBlock(Group(bytes, pos), url), EncodeFrom(bytes, pos + 3, url));
  }

  lemma EncodeSplit(rest: seq<byte>, group: seq<byte>, bytes: seq<byte>, pos: nat, url: bool)
    requires pos < |bytes| && rest == bytes[pos..] && group == Group(bytes, pos)
    ensures Encode(rest, url) == EncodeBlock(group, url) + EncodeFrom(bytes, pos + 3, url)
  {
    if |rest| > 3 {
      assert rest[..3] == group && rest[3..] == bytes[pos + 3..];
    }
  }

  lemma Associates<T>(a: seq<T>, b: seq<T>, c: seq<T>)
    ensures a + (b + c) == a + b + c
  {
  }

  method EncodeBytes(bytes: seq<byte>, url: bool) returns (ret: string)
    ensures ret == Encode(bytes, url)
  {
    var chars := Alphabet(url);
    ret := "";
    var pos := 0;
    assert bytes[0..] == bytes;
    while pos < |bytes|
      invariant 0 <= pos
      invariant ret + EncodeFrom(bytes, pos, url) == Encode(bytes, url)
    {
      var block := EncodeGroup(bytes, pos, chars, Padding(url), url);
      EncodeNext(bytes, pos, url, ret);
      ret := ret + block;
      pos := pos + 3;
    }
  }

  method DecodeString(s: string) returns (r: Result<seq<byte>>)
    ensures r == Decode(s)
  {
    var ret := [];
    var pos := 0;
    AppendLaws(Decode(s), Ok([]), Ok([]));
    assert s[0..] == s;
    while pos < |s|
      invariant 0 <= pos
      invariant Append(Ok(ret), if pos < |s| then Decode(s[pos..]) else Ok([])) == Decode(s)
    {
      var group := DecodeGroup(s, pos);
      assert |s| - pos > 4 ==> s[pos..][..4] == s[pos..pos + 4] && s[pos..][4..] == s[pos + 4..];
      AppendLaws(Ok(ret), group, if pos + 4 < |s| then Decode(s[pos + 4..]) else Ok([]));
      AppendLaws(group, Ok([]), Ok([]));
      if group.Thrown? {
        return Thrown;
      }
      ret := ret + group.value;
      pos := pos + 4;
    }
    AppendLaws(Ok(ret), Ok([]), Ok([]));
    r := Ok(ret);
  }

  /** One round of the decoding loop; a character outside the alphabet, or the end
      of the string in the middle of a group, throws. */
  method DecodeGroup(s: string, pos: nat) returns (r: Result<seq<byte>>)
    requires pos < |s|
    ensures r == DecodeBlock(if |s| - pos <= 4 then s[pos..] else s[pos..pos + 4])
  {
    ghost var g := if |s| - pos <= 4 then s[pos..] else s[pos..pos + 4];
    assert forall i :: 0 <= i <= |g| && i < 4 ==> At(s, pos + i) == At(g, i);
    var p1 := PosOfChar(At(s, pos + 1));
    var p0 := PosOfChar(s[pos]);
    if p1.Thrown? || p0.Thrown? {
      return Thrown;
    }
    var ret := [Join(p0.value, p1.value, 16)];
    if !IsPadding(At(s, pos + 2)) {
      var p2 := PosOfChar(At(s, pos + 2));
      if p2.Thrown? {
        return Thrown;
      }
      ret := ret + [Join(p1.value, p2.value, 4)];
      if !IsPadding(At(s, pos + 3)) {
        var p3 := PosOfChar(At(s, pos + 3));
        if p3.Thrown? {
          return Thrown;
        }
        ret := ret + [Join(p2.value, p3.value, 1)];
        assert ret == Bytes([p0.value, p1.value, p2.value, p3.value]);
      } else {
        assert ret == Bytes([p0.value, p1.value, p2.value]);
      }
    } else {
      assert ret == Bytes([p0.value, p1.value]);
    }
    r := Ok(ret);
  }

  /** Inserts a line break after every full line; the string grows as it goes. */
  method InsertLinebreaks(s: string, distance: nat) returns (str: string)
    requires distance > 0
    ensures str == BreakLines(s, distance)
  {
    str := s;
    var pos := distance;
    ghost var done, rest := "", s;
    while pos < |str|
      invariant pos == |done| + distance && str == done + rest
      invariant done + BreakLines(rest, distance) == BreakLines(s, distance)
      decreases |rest|
    {
      InsertOne(done, rest, distance);
      str := str[..pos] + "\n" + str[pos..];
      done, rest := done + rest[..distance] + "\n", rest[distance..];
      pos := pos + distance + 1;
    }
  }

  /** A break put behind the first line of the rest. */
  lemma InsertOne(done: string, rest: string, distance: nat)
    requires 0 < distance < |rest|
    ensures var str, pos := done + rest, |done| + distance;
            str[..pos] + "\n" + str[pos..] == done + rest[..distance] + "\n" + rest[distance..]
    ensures done + BreakLines(rest, distance)
            == done + rest[..distance] + "\n" + BreakLines(rest[distance..], distance)
  {
    var str, pos := done + rest, |done| + distance;
    assert str[..pos] == done + rest[..distance] && str[pos..] == rest[distance..];
    assert done + (rest[..distance] + "\n" + BreakLines(rest[distance..], distance))
           == done + rest[..distance] + "\n" + BreakLines(rest[distance..], distance);
  }

  /** Removes every line break, from the position of the last one removed on. */
  method RemoveLinebreaks(s: string) returns (copy: string)
    ensures copy == Strip(s)
  {
    copy := s;
    var pos := 0;
    while pos < |copy|
      invariant 0 <= pos <= |copy|
      invariant copy[..pos] + Strip(copy[pos..]) == Strip(s)
      decreases |copy| - pos
    {
      assert copy[pos..][1..] == copy[pos + 1..];
      if copy[pos] == '\n' {
        ghost var before := copy;
        copy := copy[..pos] + copy[pos + 1..];
        assert copy[..pos] == before[..pos] && copy[pos..] == before[pos + 1..];
      } else {
        assert copy[..pos + 1] == copy[..pos] + [copy[pos]];
        pos := pos + 1;
      }
    }
    assert copy[..pos] == copy;
  }

  method EncodeWithLineBreaks(bytes: seq<byte>, lineLength: nat) returns (s: string)
    requires lineLength > 0
    ensures s == BreakLines(Encode(bytes, false), lineLength)
    ensures Decode(Strip(s)) == Ok(bytes)
  {
    var plain := EncodeBytes(bytes, false);
    s := InsertLinebreaks(plain, lineLength);
    BrokenRoundTrip(bytes, lineLength);
  }

  /** Lines of 64 characters. */
  method EncodePem(bytes: seq<byte>) returns (s: string)
    ensures Decode(Strip(s)) == Ok(bytes) && Strip(s) == Encode(bytes, false)
    ensures forall i :: 0 <= i < |s| ==> (s[i] == '\n' <==> i % 65 == 64)
    ensures s != "" ==> s[|s| - 1] != '\n'
  {
    s := EncodeWithLineBreaks(bytes, 64);
    BrokenForm(bytes, 64);
  }

  /** Lines of 76 characters. */
  method EncodeMime(bytes: seq<byte>) returns (s: string)
    ensures Decode(Strip(s)) == Ok(bytes) && Strip(s) == Encode(bytes, false)
    ensures forall i :: 0 <= i < |s| ==> (s[i] == '\n' <==> i % 77 == 76)
    ensures s != "" ==> s[|s| - 1] != '\n'
  {
    s := EncodeWithLineBreaks(bytes, 76);
    BrokenForm(bytes, 76);
  }

  lemma BrokenForm(bytes: seq<byte>, distance: nat)
    requires distance > 0
    ensures var s := BreakLines(Encode(bytes, false), distance);
            && Strip(s) == Encode(bytes, false)
            && (forall i :: 0 <= i < |s| ==> (s[i] == '\n' <==> i % (distance + 1) == distance))
            && (s != "" ==> s[|s| - 1] != '\n')
  {
    var plain := Encode(bytes, false);
    var s := BreakLines(plain, distance);
    EncodedHasNoBreaks(bytes, false);
    StripUndoesBreaking(plain, distance);
    forall i | 0 <= i < |s|
      ensures s[i] == '\n' <==> i % (distance + 1) == distance
      ensures s[|s| - 1] != '\n'
    {
      BreaksAtLineEnds(plain, distance, i);
    }
  }

  method DecodeWithLineBreaks(s: string) returns (r: Result<seq<byte>>)
    ensures r == Decode(Strip(s))
  {
    var copy := RemoveLinebreaks(s);
    r := DecodeString(copy);
  }
}
