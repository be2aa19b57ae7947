/** Decimal, hexadecimal and delimited text, with the round trips the token format relies on. */
module Text {
  import opened Options
  import opened Words

  // ---------------------------------------------------------------------------------------------
  // Delimited fields
  // ---------------------------------------------------------------------------------------------

  /** The text before the first `c` and, if there is one, the text after it. */
  function CutAt(s: string, c: char): (string, Option<string>)
  {
    if s == "" then ("", None)
    else if s[0] == c then ("", Some(s[1..]))
    else var (a, b) := CutAt(s[1..], c); ([s[0]] + a, b)
  }

  lemma {:induction false} CutAtJoin(a: string, c: char, b: string)
    requires c !in a
    ensures CutAt(a + [c] + b, c) == (a, Some(b))
  {
    if a == "" {
      assert a + [c] + b == [c] + b;
      assert ([c] + b)[1..] == b;
    } else {
      assert (a + [c] + b)[1..] == a[1..] + [c] + b;
      CutAtJoin(a[1..], c, b);
      assert [a[0]] + a[1..] == a;
    }
  }

  lemma {:induction false} CutAtNone(a: string, c: char)
    requires c !in a
    ensures CutAt(a, c) == (a, None)
  {
    if a != "" {
      CutAtNone(a[1..], c);
      assert [a[0]] + a[1..] == a;
    }
  }

  lemma {:induction false} CutAtShorter(s: string, c: char)
    ensures CutAt(s, c).1.Some? ==> |CutAt(s, c).1.value| < |s|
  {
    if s != "" && s[0] != c {
      CutAtShorter(s[1..], c);
    }
  }

  function Join(sep: char, parts: seq<string>): string {
    if parts == [] then ""
    else if |parts| == 1 then parts[0]
    else parts[0] + [sep] + Join(sep, parts[1..])
  }

  function Split(sep: char, s: string): seq<string>
    decreases |s|
  {
    var (a, b) := CutAt(s, sep);
    CutAtShorter(s, sep);
    if b.None? then [a] else [a] + Split(sep, b.value)
  }

  ghost predicate Free(c: char, parts: seq<string>) {
    forall p :: p in parts ==> c !in p
  }

  /** Fields that do not contain the separator survive joining and splitting. */
  lemma {:induction false} SplitJoin(sep: char, parts: seq<string>)
    requires parts != [] && Free(sep, parts)
    ensures Split(sep, Join(sep, parts)) == parts
    decreases |parts|
  {
    if |parts| == 1 {
      CutAtNone(parts[0], sep);
      assert parts == [parts[0]];
    } else {
      SplitJoin(sep, parts[1..]);
      CutAtJoin(parts[0], sep, Join(sep, parts[1..]));
      assert parts == [parts[0]] + parts[1..];
    }
  }

  // ---------------------------------------------------------------------------------------------
  // Decimal integers
  // ---------------------------------------------------------------------------------------------

  predicate IsDigit(c: char) {
    '0' <= c <= '9'
  }

  predicate AllDigits(s: string) {
    forall i :: 0 <= i < |s| ==> IsDigit(s[i])
  }

  function DigitChar(d: nat): char
    requires d < 10
  {
    ('0' as int + d) as char
  }

  function DecNat(n: nat): string {
    if n < 10 then [DigitChar(n)] else DecNat(n / 10) + [DigitChar(n % 10)]
  }

  /** `strconv.FormatInt(n, 10)` and `strconv.Itoa`. */
  function FormatInt(n: int): string {
    if n < 0 then "-" + DecNat(-n) else DecNat(n)
  }

  function DigitsValue(s: string): nat
    requires AllDigits(s)
  {
    if s == "" then 0 else 10 * DigitsValue(s[..|s| - 1]) + (s[|s| - 1] as int - '0' as int)
  }

  const INT64_LIMIT: int := 0x8000_0000_0000_0000

  /** `strconv.ParseInt(s, 10, 64)` and `strconv.Atoi`: optional sign, digits, 64-bit range. */
  function ParseInt(s: string): Option<int> {
    if s == "" then None
    else
      var neg := s[0] == '-';
      var digits := if neg || s[0] == '+' then s[1..] else s;
      if digits == "" || !AllDigits(digits) then None
      else
        var v := DigitsValue(digits);
        if neg then (if v <= INT64_LIMIT then Some(0 - v) else None)
        else if v < INT64_LIMIT then Some(v) else None
  }

  lemma {:induction false} DecNatDigits(n: nat)
    ensures DecNat(n) != "" && AllDigits(DecNat(n)) && DigitsValue(DecNat(n)) == n
  {
    if n < 10 {
      assert DecNat(n)[..0] == "";
    } else {
      DecNatDigits(n / 10);
      var s := DecNat(n);
      assert s[..|s| - 1] == DecNat(n / 10);
    }
  }

  predicate IsInt64(n: int) {
    -0x8000_0000_0000_0000 <= n <= 0x7fff_ffff_ffff_ffff
  }

  /** What is printed is read back exactly if it fits 64 bits. */
  lemma ParseFormatInt(n: int)
    ensures ParseInt(FormatInt(n)) == if IsInt64(n) then Some(n) else None
  {
    if n < 0 {
      DecNatDigits(-n);
      ParseNegative(DecNat(-n));
    } else {
      DecNatDigits(n);
      ParseDigits(DecNat(n));
    }
  }

  lemma ParseNegative(digits: string)
    requires digits != "" && AllDigits(digits)
    ensures
      var v := DigitsValue(digits);
      ParseInt("-" + digits) == if v <= INT64_LIMIT then Some(0 - v) else None
  {
    assert ("-" + digits)[1..] == digits;
  }

  lemma ParseDigits(digits: string)
    requires digits != "" && AllDigits(digits)
    ensures
      var v := DigitsValue(digits);
      ParseInt(digits) == if v < INT64_LIMIT then Some(v) else None
  {
    assert IsDigit(digits[0]);
  }

  // ---------------------------------------------------------------------------------------------
  // Hexadecimal
  // ---------------------------------------------------------------------------------------------

  function HexChar(d: nat): char
    requires d < 16
  {
    if d < 10 then ('0' as int + d) as char else ('a' as int + (d - 10)) as char
  }

  predicate IsLowerHexChar(c: char) {
    '0' <= c <= '9' || 'a' <= c <= 'f'
  }

  /** `isLowerHex`. */
  predicate IsLowerHex(s: string) {
    forall i :: 0 <= i < |s| ==> IsLowerHexChar(s[i])
  }

  function HexValue(c: char): (v: Option<nat>)
    ensures v.Some? ==> v.value < 16
  {
    if '0' <= c <= '9' then Some(c as int - '0' as int)
    else if 'a' <= c <= 'f' then Some(c as int - 'a' as int + 10)
    else if 'A' <= c <= 'F' then Some(c as int - 'A' as int + 10)
    else None
  }

  /** `hex.EncodeToString`. */
  function HexEncode(bytes: seq<Byte>): (s: string)
    ensures |s| == 2 * |bytes|
  {
    if bytes == [] then "" else [HexChar(bytes[0] / 16), HexChar(bytes[0] % 16)] + HexEncode(bytes[1..])
  }

  /** `hex.DecodeString`. */
  function HexDecode(s: string): Option<seq<Byte>> {
    if s == "" then Some([])
    else if |s| == 1 then None
    else
      var hi, lo, rest := HexValue(s[0]), HexValue(s[1]), HexDecode(s[2..]);
      if hi.Some? && lo.Some? && rest.Some? then Some([16 * hi.value + lo.value] + rest.value) else None
  }

  lemma {:induction false} HexRoundTrip(bytes: seq<Byte>)
    ensures HexDecode(HexEncode(bytes)) == Some(bytes) && IsLowerHex(HexEncode(bytes))
  {
    if bytes != [] {
      HexRoundTrip(bytes[1..]);
      var s := HexEncode(bytes);
      assert s[2..] == HexEncode(bytes[1..]);
      assert [bytes[0]] + bytes[1..] == bytes;
      forall i | 0 <= i < |s|
        ensures IsLowerHexChar(s[i])
      {
        if i >= 2 {
          assert s[i] == s[2..][i - 2];
        }
      }
    }
  }

  const HEX_DIGITS: string := "0123456789abcdef"

  /** Each byte becomes its two hexadecimal digits, the high one first. */
  lemma {:induction false} HexEncodeAt(bytes: seq<Byte>, i: nat)
    requires i < |bytes|
    ensures HexEncode(bytes)[2 * i] == HEX_DIGITS[bytes[i] / 16]
    ensures HexEncode(bytes)[2 * i + 1] == HEX_DIGITS[bytes[i] % 16]
  {
    if i > 0 {
      HexEncodeAt(bytes[1..], i - 1);
    }
  }

  /** Lower-case hexadecimal of even length is the encoding of what it decodes to. */
  lemma {:induction false} HexDecodeEncode(s: string)
    requires IsLowerHex(s) && |s| % 2 == 0
    ensures HexDecode(s).Some? && HexEncode(HexDecode(s).value) == s
    decreases |s|
  {
    if s != "" {
      HexDecodeEncode(s[2..]);
      HexCharOf(s[0]);
      HexCharOf(s[1]);
      HexEncodeCons(16 * HexValue(s[0]).value + HexValue(s[1]).value, HexDecode(s[2..]).value);
      assert s == [s[0], s[1]] + s[2..];
    }
  }

  lemma HexEncodeCons(b: Byte, bytes: seq<Byte>)
    ensures HexEncode([b] + bytes) == [HexChar(b / 16), HexChar(b % 16)] + HexEncode(bytes)
  {
    assert ([b] + bytes)[1..] == bytes;
  }

  lemma HexCharOf(c: char)
    requires IsLowerHexChar(c)
    ensures HexValue(c).Some? && HexChar(HexValue(c).value) == c
  {}

  // ---------------------------------------------------------------------------------------------
  // UUIDs
  // ---------------------------------------------------------------------------------------------

  type Uuid = u: seq<Byte> | |u| == 16 witness seq(16, _ => 0)

  /** The canonical 36-character form. */
  function UuidString(u: Uuid): (s: string)
    ensures |s| == 36
  {
    var h := HexEncode(u);
    h[..8] + "-" + h[8..12] + "-" + h[12..16] + "-" + h[16..20] + "-" + h[20..]
  }

  /** `uuid.Parse` of the 36-character form; either letter case is accepted. */
  function UuidParse(s: string): Option<Uuid> {
    if |s| != 36 || s[8] != '-' || s[13] != '-' || s[18] != '-' || s[23] != '-' then None
    else
      var bytes := HexDecode(s[..8] + s[9..13] + s[14..18] + s[19..23] + s[24..]);
      if bytes.Some? && |bytes.value| == 16 then Some(bytes.value) else None
  }

  lemma UuidRoundTrip(u: Uuid)
    ensures UuidParse(UuidString(u)) == Some(u)
  {
    var h, s := HexEncode(u), UuidString(u);
    HexRoundTrip(u);
    assert s[..8] + s[9..13] + s[14..18] + s[19..23] + s[24..] == h by {
      assert s[..8] == h[..8] && s[9..13] == h[8..12] && s[14..18] == h[12..16];
      assert s[19..23] == h[16..20] && s[24..] == h[20..];
    }
  }

  lemma UuidChars(u: Uuid, i: nat)
    requires i < 36
    ensures IsLowerHexChar(UuidString(u)[i]) || UuidString(u)[i] == '-'
  {
    HexRoundTrip(u);
  }
}
