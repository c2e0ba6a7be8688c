/** Strings and bytes: the parts of JavaScript's String/Buffer behaviour the
    source relies on (ASCII lower-casing, `includes`, `split`, decimal and hex
    rendering, `Buffer.from(…, "hex")`, UTF-8 encoding, `Uint32Array` bytes). */
module Text {
  import opened Wrappers

  newtype byte = x: int | 0 <= x < 256

  // ---------------------------------------------------------------- case

  function ToLowerChar(c: char): char {
    if 'A' <= c <= 'Z' then (c as int + 32) as char else c
  }

  /** `s.toLowerCase()` restricted to ASCII letters. */
  function ToLower(s: string): (r: string)
    ensures |r| == |s|
    ensures forall i :: 0 <= i < |s| ==> r[i] == ToLowerChar(s[i])
  {
    seq(|s|, i requires 0 <= i < |s| => ToLowerChar(s[i]))
  }

  lemma ToLowerIdempotent(s: string)
    ensures ToLower(ToLower(s)) == ToLower(s)
  {
  }

  // ---------------------------------------------------------------- search

  /** `s.includes(sub)`. */
  predicate Contains(s: string, sub: string) {
    exists i :: 0 <= i <= |s| - |sub| && OccursAt(s, sub, i)
  }

  /** `sub` occurs in `s` starting at index `i`. */
  predicate OccursAt(s: string, sub: string, i: int) {
    0 <= i <= |s| - |sub| && s[i..i + |sub|] == sub
  }

  lemma ContainsEmpty(s: string)
    ensures Contains(s, "")
  {
    assert OccursAt(s, "", 0);
  }

  // ---------------------------------------------------------------- split

  /** `s.split(sep)` for a one-character separator: every occurrence cuts,
      so empty fields are kept. */
  function Split(s: string, sep: char): (r: seq<string>)
    ensures |r| >= 1
    ensures forall i, j :: 0 <= i < |r| && 0 <= j < |r[i]| ==> r[i][j] != sep
    decreases |s|
  {
    if s == [] then [""]
    else
      var rest := Split(s[1..], sep);
      if s[0] == sep then [""] + rest
      else
        var head := [s[0]] + rest[0];
        assert forall j :: 1 <= j < |head| ==> head[j] == rest[0][j - 1];
        [head] + rest[1..]
  }

  /** `fields.join(sep)`. */
  function Join(fields: seq<string>, sep: char): string
    requires |fields| >= 1
  {
    if |fields| == 1 then fields[0] else fields[0] + [sep] + Join(fields[1..], sep)
  }

  /** Splitting loses nothing: joining the fields gives back the string. */
  lemma {:induction false} SplitJoin(s: string, sep: char)
    ensures Join(Split(s, sep), sep) == s
  {
    if s != [] {
      SplitJoin(s[1..], sep);
      var rest := Split(s[1..], sep);
      if s[0] == sep {
        assert Split(s, sep) == [""] + rest;
        assert ([""] + rest)[1..] == rest;
        assert s == [sep] + s[1..];
      } else {
        var head := [s[0]] + rest[0];
        assert Split(s, sep) == [head] + rest[1..];
        if |rest| == 1 {
          assert Join(rest, sep) == rest[0];
        } else {
          assert Join(rest, sep) == rest[0] + [sep] + Join(rest[1..], sep);
          assert ([head] + rest[1..])[1..] == rest[1..];
        }
      }
    }
  }

  /** A string without the separator is a single field. */
  lemma {:induction false} SplitNoSeparator(t: string, sep: char)
    requires forall j :: 0 <= j < |t| ==> t[j] != sep
    ensures Split(t, sep) == [t]
  {
    if t != [] {
      SplitNoSeparator(t[1..], sep);
      assert [t[0]] + t[1..] == t;
    }
  }

  /** The text before the first separator is the first field. */
  lemma {:induction false} SplitFirstField(a: string, sep: char, b: string)
    requires forall j :: 0 <= j < |a| ==> a[j] != sep
    ensures Split(a + [sep] + b, sep) == [a] + Split(b, sep)
  {
    var s := a + [sep] + b;
    if a == [] {
      assert s[1..] == b;
    } else {
      assert s[1..] == a[1..] + [sep] + b;
      SplitFirstField(a[1..], sep, b);
      assert [a[0]] + a[1..] == a;
    }
  }

  // ---------------------------------------------------------------- decimal

  predicate IsDigit(c: char) { '0' as int <= c as int <= '9' as int }

  function DigitChar(d: nat): (c: char)
    requires d < 10
    ensures IsDigit(c) && c as int - '0' as int == d
  {
    ('0' as int + d) as char
  }

  /** `${n}` for a non-negative integer. */
  function NatToDecimal(n: nat): (s: string)
    ensures |s| >= 1
    ensures forall i :: 0 <= i < |s| ==> IsDigit(s[i])
    decreases n
  {
    if n < 10 then [DigitChar(n)] else NatToDecimal(n / 10) + [DigitChar(n % 10)]
  }

  /** The value of a string of decimal digits (`parseInt(s, 10)` on digits only). */
  function DecimalValue(s: string): nat
    requires forall i :: 0 <= i < |s| ==> IsDigit(s[i])
  {
    if s == [] then 0
    else DecimalValue(s[..|s| - 1]) * 10 + DigitValue(s[|s| - 1])
  }

  function DigitValue(c: char): (d: nat)
    requires IsDigit(c)
    ensures d < 10
  {
    c as int - '0' as int
  }

  lemma {:induction false} DecimalRoundTrip(n: nat)
    ensures DecimalValue(NatToDecimal(n)) == n
    decreases n
  {
    if n >= 10 {
      DecimalRoundTrip(n / 10);
      var s := NatToDecimal(n);
      assert s[..|s| - 1] == NatToDecimal(n / 10);
    }
  }

  lemma NatToDecimalInjective(a: nat, b: nat)
    requires NatToDecimal(a) == NatToDecimal(b)
    ensures a == b
  {
    DecimalRoundTrip(a);
    DecimalRoundTrip(b);
  }

  /** The longest prefix of `s` made of decimal digits. */
  function DigitPrefix(s: string): (d: string)
    ensures |d| <= |s| && forall i :: 0 <= i < |d| ==> d[i] == s[i] && IsDigit(d[i])
    ensures |d| < |s| ==> !IsDigit(s[|d|])
  {
    if s == [] || !IsDigit(s[0]) then [] else [s[0]] + DigitPrefix(s[1..])
  }

  /** The characters `parseInt` skips at the start: ECMAScript's white space
      (tab, vertical tab, form feed, space, no-break space, the byte order
      mark and the other space separators) and its line terminators. */
  predicate IsSpace(c: char) {
    || c == '\t' || c == '\n' || c == '\U{000B}' || c == '\U{000C}' || c == '\r' || c == ' '
    || c == '\U{00A0}' || c == '\U{1680}' || '\U{2000}' <= c <= '\U{200A}'
    || c == '\U{2028}' || c == '\U{2029}' || c == '\U{202F}' || c == '\U{205F}'
    || c == '\U{3000}' || c == '\U{FEFF}'
  }

  function TrimStart(s: string): (t: string)
    ensures |t| <= |s| && t == s[|s| - |t|..]
    ensures t == [] || !IsSpace(t[0])
    ensures forall i :: 0 <= i < |s| - |t| ==> IsSpace(s[i])
  {
    if s != [] && IsSpace(s[0]) then TrimStart(s[1..]) else s
  }

  /** The longest prefix of `s` made of hexadecimal digits of either case. */
  function HexDigitPrefix(s: string): (d: string)
    ensures |d| <= |s| && forall i :: 0 <= i < |d| ==> d[i] == s[i] && IsHexChar(d[i])
    ensures |d| < |s| ==> !IsHexChar(s[|d|])
  {
    if s == [] || !IsHexChar(s[0]) then [] else [s[0]] + HexDigitPrefix(s[1..])
  }

  /** A leading `0x` or `0X`, which makes `parseInt` without a radix read
      hexadecimal. */
  predicate HasHexPrefix(u: string) {
    |u| >= 2 && u[0] == '0' && (u[1] == 'x' || u[1] == 'X')
  }

  /** The unsigned number `parseInt` reads after the sign: hexadecimal digits
      after a `0x` prefix, decimal digits otherwise; `None` when there is no
      digit. */
  function Magnitude(u: string): (r: Option<nat>)
    ensures r.Some? ==> u != []
  {
    if HasHexPrefix(u) then
      var digits := HexDigitPrefix(u[2..]);
      if digits == [] then None else Some(HexValueOf(digits))
    else
      var digits := DigitPrefix(u);
      if digits == [] then None else Some(DecimalValue(digits))
  }

  /** `parseInt(s)` with no radix: leading white space, an optional sign, then
      the magnitude; `None` (NaN) when there is no digit. */
  function ParseInt(s: string): (r: Option<int>)
    ensures r.Some? ==> TrimStart(s) != []
    ensures r.Some? && r.value < 0 ==> TrimStart(s)[0] == '-'
  {
    var t := TrimStart(s);
    var m := Magnitude(SignFree(t));
    if m.None? then None
    else if t[0] == '-' then Some(-(m.value as int))
    else Some(m.value as int)
  }

  /** What follows an optional leading `+` or `-`. */
  function SignFree(t: string): (u: string)
    ensures |u| <= |t|
  {
    if t != [] && (t[0] == '-' || t[0] == '+') then t[1..] else t
  }

  lemma {:induction false} DigitPrefixOfDigits(s: string)
    requires forall i :: 0 <= i < |s| ==> IsDigit(s[i])
    ensures DigitPrefix(s) == s
  {
    if s != [] {
      DigitPrefixOfDigits(s[1..]);
    }
  }

  /** `parseInt` on a digit string is its value. */
  lemma {:induction false} ParseIntOfDigits(s: string)
    requires s != [] && forall i :: 0 <= i < |s| ==> IsDigit(s[i])
    ensures ParseInt(s) == Some(DecimalValue(s) as int)
  {
    assert IsDigit(s[0]);
    assert TrimStart(s) == s;
    assert SignFree(s) == s;
    assert !HasHexPrefix(s) by {
      if |s| >= 2 {
        assert IsDigit(s[1]);
      }
    }
    DigitPrefixOfDigits(s);
  }

  /** After a minus sign, the negated value. */
  lemma {:induction false} ParseIntOfNegated(s: string)
    requires s != [] && forall i :: 0 <= i < |s| ==> IsDigit(s[i])
    ensures ParseInt(['-'] + s) == Some(-(DecimalValue(s) as int))
  {
    var m := ['-'] + s;
    assert m[0] == '-' && m[1..] == s;
    assert TrimStart(m) == m;
    assert SignFree(m) == s;
    assert !HasHexPrefix(s) by {
      if |s| >= 2 {
        assert IsDigit(s[1]);
      }
    }
    DigitPrefixOfDigits(s);
  }

  lemma {:induction false} HexDigitPrefixOfHex(s: string)
    requires forall i :: 0 <= i < |s| ==> IsHexChar(s[i])
    ensures HexDigitPrefix(s) == s
  {
    if s != [] {
      HexDigitPrefixOfHex(s[1..]);
    }
  }

  /** After `0x`, the digits are read in base 16. */
  lemma {:induction false} ParseIntOfHex(s: string)
    requires s != [] && forall i :: 0 <= i < |s| ==> IsHexChar(s[i])
    ensures ParseInt("0x" + s) == Some(HexValueOf(s) as int)
  {
    var m := "0x" + s;
    assert TrimStart(m) == m;
    assert SignFree(m) == m;
    assert HasHexPrefix(m) && m[2..] == s;
    HexDigitPrefixOfHex(s);
  }

  /** `parseInt` reads back a rendered natural number. */
  lemma {:induction false} ParseIntOfDecimal(n: nat)
    ensures ParseInt(NatToDecimal(n)) == Some(n as int)
  {
    var s := NatToDecimal(n);
    ParseIntOfDigits(s);
    DecimalRoundTrip(n);
  }

  // ---------------------------------------------------------------- hex

  const HexChars: string := "0123456789abcdef"

  predicate IsLowerHexChar(c: char) {
    '0' <= c <= '9' || 'a' <= c <= 'f'
  }

  predicate IsHexChar(c: char) {
    '0' <= c <= '9' || 'a' <= c <= 'f' || 'A' <= c <= 'F'
  }

  function HexValue(c: char): (v: nat)
    requires IsHexChar(c)
    ensures v < 16
  {
    if '0' <= c <= '9' then c as int - '0' as int
    else if 'a' <= c <= 'f' then c as int - 'a' as int + 10
    else c as int - 'A' as int + 10
  }

  lemma HexCharsValue(d: nat)
    requires d < 16
    ensures IsLowerHexChar(HexChars[d]) && HexValue(HexChars[d]) == d
  {
  }

  /** `buffer.toString("hex")`: two lowercase digits per byte, high nibble first. */
  function HexEncode(bs: seq<byte>): (s: string)
    ensures |s| == 2 * |bs|
    ensures forall i :: 0 <= i < |s| ==> IsLowerHexChar(s[i])
  {
    if bs == [] then []
    else
      HexCharsValue(bs[0] as int / 16);
      HexCharsValue(bs[0] as int % 16);
      [HexChars[bs[0] as int / 16], HexChars[bs[0] as int % 16]] + HexEncode(bs[1..])
  }

  lemma {:induction false} HexEncodeAppend(a: seq<byte>, b: seq<byte>)
    ensures HexEncode(a + b) == HexEncode(a) + HexEncode(b)
  {
    if a == [] {
      assert a + b == b;
    } else {
      assert (a + b)[0] == a[0];
      assert (a + b)[1..] == a[1..] + b;
      HexEncodeAppend(a[1..], b);
    }
  }

  /** `Buffer.from(s, "hex")`: decodes digit pairs and stops at the first pair
      that is not hex (a trailing odd digit is dropped). */
  function HexDecode(s: string): (r: seq<byte>)
    ensures |r| <= |s| / 2
    decreases |s|
  {
    if |s| < 2 || !IsHexChar(s[0]) || !IsHexChar(s[1]) then []
    else [(HexValue(s[0]) * 16 + HexValue(s[1])) as byte] + HexDecode(s[2..])
  }

  /** Byte `i` of the decoding is the value of the digit pair at `2 * i`, and
      decoding stops only at a pair that is not hex or at the end. */
  lemma {:induction false} HexDecodePairs(s: string, i: nat)
    ensures i < |HexDecode(s)| ==>
      && IsHexChar(s[2 * i]) && IsHexChar(s[2 * i + 1])
      && HexDecode(s)[i] as int == HexValue(s[2 * i]) * 16 + HexValue(s[2 * i + 1])
    ensures i == |HexDecode(s)| && i < |s| / 2 ==> !(IsHexChar(s[2 * i]) && IsHexChar(s[2 * i + 1]))
    decreases |s|
  {
    if |s| >= 2 && IsHexChar(s[0]) && IsHexChar(s[1]) && i > 0 {
      HexDecodePairs(s[2..], i - 1);
      if 2 * i + 1 < |s| {
        assert s[2..][2 * (i - 1)] == s[2 * i];
        assert s[2..][2 * (i - 1) + 1] == s[2 * i + 1];
      }
    }
  }

  lemma {:induction false} HexRoundTrip(bs: seq<byte>)
    ensures HexDecode(HexEncode(bs)) == bs
  {
    if bs != [] {
      var s := HexEncode(bs);
      HexCharsValue(bs[0] as int / 16);
      HexCharsValue(bs[0] as int % 16);
      assert s[2..] == HexEncode(bs[1..]);
      HexRoundTrip(bs[1..]);
      assert bs == [bs[0]] + bs[1..];
    }
  }

  /** `parseInt(s, 16)` on a string of hex digits. */
  function HexValueOf(s: string): nat
    requires forall i :: 0 <= i < |s| ==> IsHexChar(s[i])
  {
    if s == [] then 0 else HexValueOf(s[..|s| - 1]) * 16 + HexValue(s[|s| - 1])
  }

  /** The unsigned big-endian value of a byte string. */
  function BigEndian(bs: seq<byte>): nat {
    if bs == [] then 0 else BigEndian(bs[..|bs| - 1]) * 256 + bs[|bs| - 1] as int
  }

  function Pow256(k: nat): nat {
    if k == 0 then 1 else 256 * Pow256(k - 1)
  }

  lemma {:induction false} BigEndianBound(bs: seq<byte>)
    ensures BigEndian(bs) < Pow256(|bs|)
  {
    if bs != [] {
      BigEndianBound(bs[..|bs| - 1]);
    }
  }

  /** Reading the hex rendering back as a number gives the big-endian value. */
  lemma {:induction false} HexValueOfEncode(bs: seq<byte>)
    ensures HexValueOf(HexEncode(bs)) == BigEndian(bs)
    decreases |bs|
  {
    if bs != [] {
      var init, last := bs[..|bs| - 1], bs[|bs| - 1];
      assert bs == init + [last];
      HexEncodeAppend(init, [last]);
      var s := HexEncode(bs);
      var hi, lo := HexChars[last as int / 16], HexChars[last as int % 16];
      HexCharsValue(last as int / 16);
      HexCharsValue(last as int % 16);
      assert HexEncode([last]) == [hi, lo];
      assert s == HexEncode(init) + [hi, lo];
      assert s[..|s| - 1] == HexEncode(init) + [hi];
      assert (HexEncode(init) + [hi])[..|s| - 2] == HexEncode(init);
      HexValueOfEncode(init);
    }
  }

  /** `n.toString(16)`: lowercase, no leading zeros. */
  function NatToHex(n: nat): (s: string)
    ensures |s| >= 1
    ensures forall i :: 0 <= i < |s| ==> IsLowerHexChar(s[i])
    decreases n
  {
    HexCharsValue(n % 16);
    if n < 16 then [HexChars[n]] else NatToHex(n / 16) + [HexChars[n % 16]]
  }

  /** `s.padStart(n, c)`. */
  function PadStart(s: string, n: nat, c: char): (r: string)
    ensures |r| == if |s| < n then n else |s|
    ensures r[|r| - |s|..] == s
    ensures forall i :: 0 <= i < |r| - |s| ==> r[i] == c
  {
    if |s| >= n then s else seq(n - |s|, _ => c) + s
  }

  /** Each lowercase digit is the digit of its own value. */
  lemma LowerHexCharOfValue(c: char)
    requires IsLowerHexChar(c)
    ensures HexValue(c) < 16 && HexChars[HexValue(c)] == c
  {
  }

  /** `parseInt(n.toString(16), 16) == n`. */
  lemma {:induction false} NatToHexValue(n: nat)
    ensures HexValueOf(NatToHex(n)) == n
    decreases n
  {
    var s := NatToHex(n);
    HexCharsValue(n % 16);
    if n >= 16 {
      NatToHexValue(n / 16);
      assert s[..|s| - 1] == NatToHex(n / 16);
    }
  }

  /** A number below `256^k`, `k >= 1`, has at most `2k` hexadecimal digits
      (`0` itself has one). */
  lemma {:induction false} NatToHexLength(n: nat, k: nat)
    requires k >= 1 && n < Pow256(k)
    ensures |NatToHex(n)| <= 2 * k
    decreases k
  {
    if n >= 16 {
      if n < 256 {
        assert n / 16 < 16;
        assert NatToHex(n / 16) == [HexChars[n / 16]];
      } else {
        assert k >= 2;
        assert n / 16 >= 16;
        assert n / 16 / 16 == n / 256;
        assert n / 256 < Pow256(k - 1);
        NatToHexLength(n / 256, k - 1);
        assert NatToHex(n) == NatToHex(n / 16 / 16) + [HexChars[n / 16 % 16]] + [HexChars[n % 16]];
      }
    }
  }

  /** Byte strings of one length with the same big-endian value are equal. */
  lemma {:induction false} BigEndianInjective(a: seq<byte>, b: seq<byte>)
    requires |a| == |b| && BigEndian(a) == BigEndian(b)
    ensures a == b
  {
    if a != [] {
      var n := |a| - 1;
      var x, y := BigEndian(a[..n]), BigEndian(b[..n]);
      assert x * 256 + a[n] as int == y * 256 + b[n] as int;
      assert a[n] == b[n] && x == y;
      BigEndianInjective(a[..n], b[..n]);
      assert a == a[..n] + [a[n]] && b == b[..n] + [b[n]];
    }
  }

  /** Leading zeros do not change a hexadecimal value. */
  lemma {:induction false} HexValueOfLeadingZeros(z: string, s: string)
    requires forall i :: 0 <= i < |z| ==> z[i] == '0'
    requires forall i :: 0 <= i < |s| ==> IsHexChar(s[i])
    ensures HexValueOf(z + s) == HexValueOf(s)
    decreases |s|, |z|
  {
    if s == [] {
      assert z + s == z;
      if z != [] {
        HexValueOfLeadingZeros(z[..|z| - 1], []);
        assert z[..|z| - 1] + [] == z[..|z| - 1];
      }
    } else {
      var t := s[..|s| - 1];
      assert (z + s)[..|z + s| - 1] == z + t;
      HexValueOfLeadingZeros(z, t);
    }
  }

  /** An even-length string of lowercase digits is the encoding of its decoding. */
  lemma {:induction false} HexEncodeOfDecode(s: string)
    requires |s| % 2 == 0
    requires forall i :: 0 <= i < |s| ==> IsLowerHexChar(s[i])
    ensures HexEncode(HexDecode(s)) == s
    decreases |s|
  {
    if s != [] {
      var t := s[2..];
      assert forall i :: 0 <= i < |t| ==> IsLowerHexChar(t[i]) by {
        forall i | 0 <= i < |t| ensures IsLowerHexChar(t[i]) {
          assert t[i] == s[i + 2];
        }
      }
      HexEncodeOfDecode(t);
      LowerHexCharOfValue(s[0]);
      LowerHexCharOfValue(s[1]);
      var hi, lo := HexValue(s[0]), HexValue(s[1]);
      var b := (hi * 16 + lo) as byte;
      assert b as int / 16 == hi && b as int % 16 == lo;
      var d := HexDecode(s);
      assert d == [b] + HexDecode(t);
      assert d[0] == b && d[1..] == HexDecode(t);
      assert HexEncode(d) == [HexChars[hi], HexChars[lo]] + HexEncode(d[1..]);
      assert s == [s[0], s[1]] + t;
    }
  }

  /** Decoding an even-length string of lowercase digits gives one byte per
      digit pair, and the bytes read big-endian have the digits' value. */
  lemma HexDecodeValue(s: string)
    requires |s| % 2 == 0
    requires forall i :: 0 <= i < |s| ==> IsLowerHexChar(s[i])
    ensures |HexDecode(s)| == |s| / 2
    ensures (forall i :: 0 <= i < |s| ==> IsHexChar(s[i])) && BigEndian(HexDecode(s)) == HexValueOf(s)
  {
    HexEncodeOfDecode(s);
    HexValueOfEncode(HexDecode(s));
  }

  // ---------------------------------------------------------------- bytes

  /** The UTF-8 encoding of one Unicode scalar value. */
  function Utf8Char(c: char): (bs: seq<byte>)
    ensures 1 <= |bs| <= 4
    ensures (c as int < 0x80) <==> |bs| == 1
  {
    var n := c as int;
    if n < 0x80 then [n as byte]
    else if n < 0x800 then [(0xC0 + n / 0x40) as byte, (0x80 + n % 0x40) as byte]
    else if n < 0x10000 then
      [(0xE0 + n / 0x1000) as byte, (0x80 + (n / 0x40) % 0x40) as byte, (0x80 + n % 0x40) as byte]
    else
      [(0xF0 + n / 0x40000) as byte, (0x80 + (n / 0x1000) % 0x40) as byte,
       (0x80 + (n / 0x40) % 0x40) as byte, (0x80 + n % 0x40) as byte]
  }

  /** `Buffer.from(s)`: the UTF-8 bytes of a string. */
  function Utf8(s: string): seq<byte> {
    if s == [] then [] else Utf8Char(s[0]) + Utf8(s[1..])
  }

  predicate IsAscii(s: string) {
    forall i :: 0 <= i < |s| ==> s[i] as int < 0x80
  }

  /** An ASCII string encodes to one byte per character, each its code. */
  lemma {:induction false} Utf8Ascii(s: string)
    requires IsAscii(s)
    ensures |Utf8(s)| == |s|
    ensures forall i :: 0 <= i < |s| ==> Utf8(s)[i] as int == s[i] as int
  {
    if s != [] {
      Utf8Ascii(s[1..]);
      assert Utf8(s) == [s[0] as int as byte] + Utf8(s[1..]);
    }
  }

  /** The bytes of an ASCII string, one per character. */
  function AsciiBytes(s: string): (bs: seq<byte>)
    requires IsAscii(s)
    ensures |bs| == |s| && forall i :: 0 <= i < |s| ==> bs[i] as int == s[i] as int
  {
    seq(|s|, i requires 0 <= i < |s| => s[i] as int as byte)
  }

  /** For ASCII text `Buffer.from(s)` is exactly those bytes. */
  lemma Utf8OfAscii(s: string)
    requires IsAscii(s)
    ensures Utf8(s) == AsciiBytes(s)
  {
    Utf8Ascii(s);
  }

  lemma {:induction false} Utf8Append(a: string, b: string)
    ensures Utf8(a + b) == Utf8(a) + Utf8(b)
  {
    if a == [] {
      assert a + b == b;
    } else {
      assert (a + b)[0] == a[0];
      assert (a + b)[1..] == a[1..] + b;
      Utf8Append(a[1..], b);
    }
  }

  const TwoTo32: int := 0x1_0000_0000

  /** `Buffer.from(new Uint32Array([x]).buffer)` on a little-endian host:
      ToUint32 wraps `x` modulo 2^32, then the four bytes, lowest first. */
  function Uint32LE(x: int): (bs: seq<byte>)
    ensures |bs| == 4
  {
    var v := x % TwoTo32;
    [(v % 0x100) as byte, ((v / 0x100) % 0x100) as byte,
     ((v / 0x1_0000) % 0x100) as byte, (v / 0x100_0000) as byte]
  }

  function LittleEndian4(bs: seq<byte>): nat
    requires |bs| == 4
  {
    bs[0] as int + 0x100 * bs[1] as int + 0x1_0000 * bs[2] as int + 0x100_0000 * bs[3] as int
  }

  /** The four bytes read back little-endian give `x` modulo 2^32. */
  lemma Uint32LERoundTrip(x: int)
    ensures LittleEndian4(Uint32LE(x)) == x % TwoTo32
  {
    var v := x % TwoTo32;
    var b0, q0 := v % 0x100, v / 0x100;
    var b1, q1 := q0 % 0x100, q0 / 0x100;
    var b2, b3 := q1 % 0x100, q1 / 0x100;
    assert v == b0 + 0x100 * q0;
    assert q0 == b1 + 0x100 * q1;
    assert q1 == b2 + 0x100 * b3;
    assert v / 0x1_0000 == q1;
    assert v / 0x100_0000 == b3;
  }
}
