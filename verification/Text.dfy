/** The part of Go's `strings` and `strconv` that the program relies on. */
module Text {
  import opened Base

  // ----- substrings and replacement -----

  ghost predicate OccursAt<T>(s: seq<T>, p: seq<T>, i: int) {
    0 <= i && i + |p| <= |s| && s[i..i + |p|] == p
  }

  ghost predicate Contains<T>(s: seq<T>, p: seq<T>) {
    exists i :: OccursAt(s, p, i)
  }

  /** `strings.ReplaceAll` for a non-empty pattern: leftmost, non-overlapping. */
  function ReplaceAll<T(==)>(s: seq<T>, p: seq<T>, r: seq<T>): seq<T>
    requires p != []
  {
    if s == [] then []
    else if p <= s then r + ReplaceAll(s[|p|..], p, r)
    else [s[0]] + ReplaceAll(s[1..], p, r)
  }

  lemma PrefixIsOccurrence<T>(s: seq<T>, p: seq<T>)
    ensures p <= s <==> OccursAt(s, p, 0)
  {
    if p <= s {
      assert s[0..0 + |p|] == p;
    }
  }

  lemma OccurrenceShifts<T>(s: seq<T>, p: seq<T>, k: nat, i: int)
    requires k <= |s| && 0 <= i
    ensures OccursAt(s[k..], p, i) <==> OccursAt(s, p, k + i)
  {
    if k + i + |p| <= |s| {
      assert s[k..][i..i + |p|] == s[k + i..k + i + |p|];
    }
  }

  lemma TailLacks<T>(s: seq<T>, p: seq<T>, k: nat)
    requires k <= |s| && !Contains(s, p)
    ensures !Contains(s[k..], p)
  {
    forall i | OccursAt(s[k..], p, i)
      ensures false
    {
      OccurrenceShifts(s, p, k, i);
    }
  }

  /** A pattern occurs in a non-empty text at its start or behind its first element. */
  lemma ContainsStep<T>(s: seq<T>, p: seq<T>)
    requires s != []
    ensures Contains(s, p) <==> p <= s || Contains(s[1..], p)
  {
    PrefixIsOccurrence(s, p);
    if i :| OccursAt(s, p, i) && i > 0 {
      OccurrenceShifts(s, p, 1, i - 1);
    }
    if !Contains(s, p) {
      TailLacks(s, p, 1);
    }
  }

  /** A string without the pattern is left alone. */
  lemma {:induction false} ReplaceAbsent<T>(s: seq<T>, p: seq<T>, r: seq<T>)
    requires p != [] && !Contains(s, p)
    ensures ReplaceAll(s, p, r) == s
  {
    if s != [] {
      PrefixIsOccurrence(s, p);
      TailLacks(s, p, 1);
      ReplaceAbsent(s[1..], p, r);
    }
  }

  /** Where the pattern does not start, the text is kept. */
  lemma {:induction false} ReplaceSkips<T>(s: seq<T>, p: seq<T>, r: seq<T>, i: nat)
    requires p != [] && i <= |s| && forall j :: 0 <= j < i ==> !OccursAt(s, p, j)
    ensures ReplaceAll(s, p, r) == s[..i] + ReplaceAll(s[i..], p, r)
  {
    if i == 0 {
      assert s[0..] == s;
    } else {
      ReplaceSkips(s, p, r, i - 1);
      var rest := s[i - 1..];
      OccurrenceShifts(s, p, i - 1, 0);
      PrefixIsOccurrence(rest, p);
      assert rest[1..] == s[i..];
      assert s[..i] == s[..i - 1] + [rest[0]];
      Associative(s[..i - 1], [rest[0]], ReplaceAll(s[i..], p, r));
    }
  }

  /** Up to its first occurrence the text is kept, the occurrence becomes the replacement, and the scan resumes behind
      it. Together with `ReplaceAbsent` this determines `ReplaceAll`. */
  lemma ReplaceFirst<T>(s: seq<T>, p: seq<T>, r: seq<T>, i: nat)
    requires p != [] && OccursAt(s, p, i)
    requires forall j :: 0 <= j < i ==> !OccursAt(s, p, j)
    ensures ReplaceAll(s, p, r) == s[..i] + r + ReplaceAll(s[i + |p|..], p, r)
  {
    ReplaceSkips(s, p, r, i);
    var rest := s[i..];
    OccurrenceShifts(s, p, i, 0);
    PrefixIsOccurrence(rest, p);
    assert rest[|p|..] == s[i + |p|..];
    Associative(s[..i], r, ReplaceAll(s[i + |p|..], p, r));
  }

  lemma Associative<T>(a: seq<T>, b: seq<T>, c: seq<T>)
    ensures a + b + c == a + (b + c)
  {
  }

  // ----- trimming -----

  /** `unicode.IsSpace`. */
  predicate IsSpace(c: char) {
    c in " \t\n\r" || c == 0xB as char || c == 0xC as char || c == 0x85 as char || c == 0xA0 as char
    || c == 0x1680 as char || 0x2000 as char <= c <= 0x200A as char || c == 0x2028 as char || c == 0x2029 as char
    || c == 0x202F as char || c == 0x205F as char || c == 0x3000 as char
  }

  predicate IsQuote(c: char) { c == '"' || c == '\'' }

  function TrimLeft(s: string, cut: char -> bool): (r: string)
    ensures r == "" || !cut(r[0])
  {
    if s != "" && cut(s[0]) then TrimLeft(s[1..], cut) else s
  }

  function TrimRight(s: string, cut: char -> bool): (r: string)
    ensures r <= s
    ensures r == "" || !cut(r[|r| - 1])
  {
    if s != "" && cut(s[|s| - 1]) then TrimRight(s[..|s| - 1], cut) else s
  }

  function Trim(s: string, cut: char -> bool): string { TrimRight(TrimLeft(s, cut), cut) }

  function TrimSpace(s: string): string { Trim(s, IsSpace) }

  ghost predicate AllCut(s: string, cut: char -> bool) { forall c :: c in s ==> cut(c) }

  /** Nothing to cut at either end. */
  ghost predicate Trimmed(s: string, cut: char -> bool) { s == "" || (!cut(s[0]) && !cut(s[|s| - 1])) }

  lemma {:induction false} TrimLeftPadded(pad: string, s: string, cut: char -> bool)
    requires AllCut(pad, cut)
    ensures TrimLeft(pad + s, cut) == TrimLeft(s, cut)
  {
    if pad == "" {
      assert pad + s == s;
    } else {
      assert cut(pad[0]) && (pad + s)[1..] == pad[1..] + s;
      TrimLeftPadded(pad[1..], s, cut);
    }
  }

  lemma {:induction false} TrimRightPadded(s: string, pad: string, cut: char -> bool)
    requires AllCut(pad, cut)
    ensures TrimRight(s + pad, cut) == TrimRight(s, cut)
  {
    if pad == "" {
      assert s + pad == s;
    } else {
      var n := |pad| - 1;
      assert cut(pad[n]) && (s + pad)[..|s| + n] == s + pad[..n];
      TrimRightPadded(s, pad[..n], cut);
    }
  }

  /** Trimming undoes padding: whatever cuttable characters surround a trimmed text, only the text is left. */
  lemma TrimPadded(left: string, s: string, right: string, cut: char -> bool)
    requires AllCut(left, cut) && AllCut(right, cut) && Trimmed(s, cut)
    ensures Trim(left + s + right, cut) == s
  {
    assert left + s + right == left + (s + right);
    TrimLeftPadded(left, s + right, cut);
    if s == "" {
      assert s + right == right + s;
      TrimLeftPadded(right, s, cut);
    } else {
      TrimRightPadded(s, right, cut);
    }
  }

  lemma {:induction false} TrimLeftSplits(s: string, cut: char -> bool) returns (left: string)
    ensures s == left + TrimLeft(s, cut) && AllCut(left, cut)
  {
    if s != "" && cut(s[0]) {
      var rest := TrimLeftSplits(s[1..], cut);
      left := [s[0]] + rest;
    } else {
      left := "";
    }
  }

  lemma {:induction false} TrimRightSplits(s: string, cut: char -> bool) returns (right: string)
    ensures s == TrimRight(s, cut) + right && AllCut(right, cut)
  {
    if s != "" && cut(s[|s| - 1]) {
      var rest := TrimRightSplits(s[..|s| - 1], cut);
      right := rest + [s[|s| - 1]];
      assert s == s[..|s| - 1] + [s[|s| - 1]];
    } else {
      right := "";
    }
  }

  lemma TrimSplits(s: string, cut: char -> bool) returns (left: string, right: string)
    ensures s == left + Trim(s, cut) + right && AllCut(left, cut) && AllCut(right, cut)
  {
    hide TrimLeft, TrimRight, AllCut;
    left := TrimLeftSplits(s, cut);
    right := TrimRightSplits(TrimLeft(s, cut), cut);
    Associative(left, Trim(s, cut), right);
  }

  // ----- splitting at a character -----

  function IndexOf(s: string, c: char): (i: nat)
    ensures i <= |s|
    ensures i < |s| ==> s[i] == c
    ensures c !in s[..i]
  {
    if s == "" then 0 else if s[0] == c then 0
    else
      var i := IndexOf(s[1..], c) + 1;
      assert s[..i] == [s[0]] + s[1..][..i - 1];
      i
  }

  lemma IndexOfFirst(before: string, c: char, after: string)
    requires c !in before
    ensures IndexOf(before + [c] + after, c) == |before|
  {
    var s := before + [c] + after;
    assert s[|before|] == c;
    assert IndexOf(s, c) <= |before|;
  }

  // ----- case -----

  predicate IsUpper(c: char) { 'A' <= c <= 'Z' }
  predicate IsLower(c: char) { 'a' <= c <= 'z' }
  predicate IsDigit(c: char) { '0' <= c <= '9' }

  function LowerChar(c: char): char { if IsUpper(c) then c + 32 as char else c }

  /** `strings.ToLower` on ASCII; the other letters are left alone. */
  function ToLower(s: string): (r: string)
    ensures |r| == |s|
    ensures forall i :: 0 <= i < |s| ==> r[i] == LowerChar(s[i])
  {
    seq(|s|, i requires 0 <= i < |s| => LowerChar(s[i]))
  }

  // ----- decimal numbers -----

  function DigitChar(d: int): char
    requires 0 <= d < 10
  {
    '0' + d as char
  }

  function DigitValue(c: char): int
    requires IsDigit(c)
  {
    c as int - '0' as int
  }

  /** `%d` of a non-negative number. */
  function Decimal(n: nat): (s: string)
    ensures s != "" && forall c :: c in s ==> IsDigit(c)
  {
    if n < 10 then [DigitChar(n)] else Decimal(n / 10) + [DigitChar(n % 10)]
  }

  predicate AllDigits(s: string) { forall i :: 0 <= i < |s| ==> IsDigit(s[i]) }

  function DigitsValue(s: string): nat
    requires AllDigits(s)
  {
    if s == "" then 0 else DigitsValue(s[..|s| - 1]) * 10 + DigitValue(s[|s| - 1])
  }

  lemma {:induction false} DecimalValue(n: nat)
    ensures AllDigits(Decimal(n)) && DigitsValue(Decimal(n)) == n
  {
    var s := Decimal(n);
    if n < 10 {
      assert s[..|s| - 1] == "";
    } else {
      DecimalValue(n / 10);
      assert s[..|s| - 1] == Decimal(n / 10);
    }
  }

  /** No superfluous zero in front. */
  predicate NoLeadingZero(s: string) { s != "" && (s[0] == '0' ==> |s| == 1) }

  lemma {:induction false} DecimalHasNoLeadingZero(n: nat)
    ensures NoLeadingZero(Decimal(n)) && (n > 0 ==> Decimal(n)[0] != '0')
  {
    if n >= 10 {
      DecimalHasNoLeadingZero(n / 10);
      assert Decimal(n)[0] == Decimal(n / 10)[0];
    }
  }

  /** A digit string without leading zeros is the decimal of its value. */
  lemma {:induction false} DigitsAreDecimal(s: string)
    requires AllDigits(s) && NoLeadingZero(s)
    ensures Decimal(DigitsValue(s)) == s
    ensures s[0] != '0' ==> DigitsValue(s) > 0
  {
    var n := |s| - 1;
    if n > 0 {
      assert s[..n][0] == s[0];
      DigitsAreDecimal(s[..n]);
      var v, d := DigitsValue(s[..n]), DigitValue(s[n]);
      assert v > 0 && DigitsValue(s) == v * 10 + d;
      assert (v * 10 + d) / 10 == v && (v * 10 + d) % 10 == d;
      assert s == s[..n] + [s[n]];
    } else {
      assert s[..0] == "" && s == [s[0]];
    }
  }

  type Int64 = n: int | -0x8000_0000_0000_0000 <= n < 0x8000_0000_0000_0000

  predicate FitsInt64(n: int) { -0x8000_0000_0000_0000 <= n < 0x8000_0000_0000_0000 }

  /** `strconv.Atoi` with 64-bit ints: an optional sign, then digits only, and no overflow. */
  function Atoi(s: string): Option<Int64> {
    var negative := s != "" && s[0] == '-';
    var digits := if s != "" && (s[0] == '-' || s[0] == '+') then s[1..] else s;
    if digits == "" || !AllDigits(digits) then None
    else
      var magnitude: int := DigitsValue(digits);
      var value := if negative then -magnitude else magnitude;
      if FitsInt64(value) then Some(value) else None
  }

  function Itoa(n: int): string { if n < 0 then "-" + Decimal(-n) else Decimal(n) }

  lemma DecimalUnsigned(n: nat)
    ensures var d := Decimal(n); AllDigits(d) && DigitsValue(d) == n && d != "" && d[0] != '-' && d[0] != '+'
  {
    DecimalValue(n);
    assert Decimal(n)[0] in Decimal(n);
  }

  lemma AtoiItoa(n: Int64)
    ensures Atoi(Itoa(n)) == Some(n)
  {
    hide Decimal, DigitsValue, AllDigits;
    var v: int := n;
    var m := if v < 0 then -v else v;
    DecimalUnsigned(m);
    var d := Decimal(m);
    if v < 0 {
      assert Itoa(n) == "-" + d && ("-" + d)[1..] == d;
    } else {
      assert Itoa(n) == d;
    }
  }

  // ----- hexadecimal and bytes -----

  predicate IsHex(c: char) { IsDigit(c) || 'a' <= c <= 'f' || 'A' <= c <= 'F' }

  function HexDigit(d: int): (c: char)
    requires 0 <= d < 16
    ensures IsHex(c) && LowerChar(c) == c
  {
    if d < 10 then '0' + d as char else 'a' + (d - 10) as char
  }

  /** `hex.EncodeToString` and `%x`: lower case, two digits a byte. */
  function HexEncode(data: bytes): (s: string)
    ensures |s| == 2 * |data|
    ensures forall c :: c in s ==> IsHex(c)
    ensures ToLower(s) == s
  {
    if data == [] then ""
    else
      var b := data[0] as int;
      [HexDigit(b / 16), HexDigit(b % 16)] + HexEncode(data[1..])
  }

  /** `^[a-fA-F0-9]{64}$` */
  predicate IsSha256Text(s: string) { |s| == 64 && forall i :: 0 <= i < |s| ==> IsHex(s[i]) }

  function Utf8Char(c: char): (b: bytes)
    ensures 1 <= |b| <= 4
  {
    var n := c as int;
    if n < 0x80 then [n as byte]
    else if n < 0x800 then [(0xC0 + n / 0x40) as byte, (0x80 + n % 0x40) as byte]
    else if n < 0x1_0000 then
      [(0xE0 + n / 0x1000) as byte, (0x80 + n / 0x40 % 0x40) as byte, (0x80 + n % 0x40) as byte]
    else
      [(0xF0 + n / 0x4_0000) as byte, (0x80 + n / 0x1000 % 0x40) as byte, (0x80 + n / 0x40 % 0x40) as byte,
       (0x80 + n % 0x40) as byte]
  }

  /** The bytes Go stores for a text. */
  function Utf8(s: string): bytes {
    if s == "" then [] else Utf8Char(s[0]) + Utf8(s[1..])
  }

  // ----- tables, spelled out -----

  lemma SpaceTable(c: char)
    ensures IsSpace(c) <==>
      c as int in {0x9, 0xA, 0xB, 0xC, 0xD, 0x20, 0x85, 0xA0, 0x1680, 0x2028, 0x2029, 0x202F, 0x205F, 0x3000} ||
      0x2000 <= c as int <= 0x200A
  {
  }

  lemma LowerTable(c: char)
    ensures ToLower([c]) == if 'A' <= c <= 'Z' then [(c as int - 'A' as int + 'a' as int) as char] else [c]
  {
  }

  lemma HexTable(c: char)
    ensures IsHex(c) <==> '0' <= c <= '9' || 'a' <= c <= 'f' || 'A' <= c <= 'F'
  {
  }

  /** The value of a hex digit. */
  function HexValue(c: char): int
    requires '0' <= c <= '9' || 'a' <= c <= 'f'
  {
    if c <= '9' then c as int - '0' as int else c as int - 'a' as int + 10
  }

  /** Two hex digits stand for a byte. */
  ghost predicate HexPair(hi: char, lo: char, b: byte) {
    ('0' <= hi <= '9' || 'a' <= hi <= 'f') && ('0' <= lo <= '9' || 'a' <= lo <= 'f') &&
    16 * HexValue(hi) + HexValue(lo) == b as int
  }

  lemma DigitsOfByte(b: byte)
    ensures HexPair(HexDigit(b as int / 16), HexDigit(b as int % 16), b)
  {
    assert b as int == b as int / 16 * 16 + b as int % 16;
  }

  lemma HexFirst(data: bytes)
    requires data != []
    ensures HexPair(HexEncode(data)[0], HexEncode(data)[1], data[0])
    ensures HexEncode(data)[2..] == HexEncode(data[1..])
  {
    hide HexPair, HexDigit;
    DigitsOfByte(data[0]);
    var b := data[0] as int;
    var first, rest := [HexDigit(b / 16), HexDigit(b % 16)], HexEncode(data[1..]);
    assert HexEncode(data) == first + rest && (first + rest)[2..] == rest;
  }

  /** Two digits a byte, the more significant first. */
  lemma {:induction false} HexEncodes(data: bytes, k: nat)
    requires k < |data|
    ensures HexPair(HexEncode(data)[2 * k], HexEncode(data)[2 * k + 1], data[k])
  {
    hide HexPair, HexDigit, HexEncode;
    HexFirst(data);
    if k > 0 {
      HexEncodes(data[1..], k - 1);
      var s := HexEncode(data);
      assert s[2..][2 * (k - 1)] == s[2 * k] && s[2..][2 * (k - 1) + 1] == s[2 * k + 1];
    }
  }

  /** What a text of an integer is: an optional sign, and digits, at least one. */
  ghost predicate WritesInteger(s: string, sign: string, digits: string, n: int) {
    s == sign + digits && (sign == "" || sign == "+" || sign == "-") && digits != "" && AllDigits(digits) &&
    var value: int := DigitsValue(digits);
    n == if sign == "-" then -value else value
  }

  /** `Atoi` reads exactly the texts of integers that fit 64 bits. */
  lemma AtoiIff(s: string, n: Int64)
    ensures Atoi(s) == Some(n) <==> exists sign, digits :: WritesInteger(s, sign, digits, n)
  {
    hide DigitsValue;
    if Atoi(s) == Some(n) {
      var sign := if s[0] == '-' || s[0] == '+' then s[..1] else "";
      assert WritesInteger(s, sign, s[|sign|..], n);
    }
    forall sign, digits | WritesInteger(s, sign, digits, n)
      ensures Atoi(s) == Some(n)
    {
      assert IsDigit(digits[0]);
      if sign == "" {
        assert s == digits;
      } else {
        assert s[0] == sign[0] && s[1..] == digits;
      }
    }
  }

  /** What a byte sequence of UTF-8 stands for, by its first byte. */
  function Utf8Value(b: bytes): int
    requires 1 <= |b| <= 4
  {
    if |b| == 1 then b[0] as int
    else if |b| == 2 then (b[0] as int - 0xC0) * 64 + (b[1] as int - 0x80)
    else if |b| == 3 then (b[0] as int - 0xE0) * 4096 + (b[1] as int - 0x80) * 64 + (b[2] as int - 0x80)
    else (b[0] as int - 0xF0) * 262144 + (b[1] as int - 0x80) * 4096 + (b[2] as int - 0x80) * 64 + (b[3] as int - 0x80)
  }

  /** Each character is written by its number, in as many bytes as it needs. */
  lemma Utf8CharIs(c: char)
    ensures Utf8Value(Utf8Char(c)) == c as int
    ensures |Utf8Char(c)| ==
      if c as int < 0x80 then 1 else if c as int < 0x800 then 2 else if c as int < 0x1_0000 then 3 else 4
    ensures forall i :: 1 <= i < |Utf8Char(c)| ==> 0x80 <= Utf8Char(c)[i] as int < 0xC0
  {
    var n := c as int;
    assert n == n / 64 * 64 + n % 64;
    assert n / 64 == n / 4096 * 64 + n / 64 % 64 by {
      assert n / 64 / 64 == n / 4096;
    }
    assert n / 4096 == n / 262144 * 64 + n / 4096 % 64 by {
      assert n / 4096 / 64 == n / 262144;
    }
  }
}
