/**
 Text conversions used by the commands: `sscanf` and `printf` numbers and `strtok_r` on '|'.

 Numbers are unsigned digit strings without blanks, signs or prefixes, read as in section
 7.19.6.2 of ISO/IEC 9899:1999 and printed as in section 7.19.6.1.  A number that does not fit
 its variable, which that section leaves undefined, is reduced to the width of the variable.
 */
module Scan {
  const U16: nat := 0x1_0000
  const U32: nat := 0x1_0000_0000

  // ---------------------------------------------------------------- digits

  function DigitValue(c: char): nat {
    if '0' <= c <= '9' then c as int - '0' as int
    else if 'a' <= c <= 'f' then c as int - 'a' as int + 10
    else if 'A' <= c <= 'F' then c as int - 'A' as int + 10
    else 16
  }

  predicate IsDigit(c: char, base: nat) {
    DigitValue(c) < base
  }

  predicate AllDigits(s: string, base: nat) {
    forall i :: 0 <= i < |s| ==> IsDigit(s[i], base)
  }

  /** The number a digit string stands for. */
  function Numeral(s: string, base: nat): nat {
    if s == [] then 0 else Numeral(s[..|s| - 1], base) * base + DigitValue(s[|s| - 1])
  }

  /** The sixteen digits, in either case, and nothing else. */
  lemma DigitTable(c: char)
    ensures forall k :: 0 <= k < 16 ==>
              (DigitValue(c) == k <==> c == "0123456789abcdef"[k] || c == "0123456789ABCDEF"[k])
  {
  }

  function UpperCase(s: string): (r: string)
    ensures |r| == |s| && forall i :: 0 <= i < |s| ==> r[i] == if 'a' <= s[i] <= 'f' then s[i] - ' ' else s[i]
  {
    seq(|s|, i requires 0 <= i < |s| => if 'a' <= s[i] <= 'f' then s[i] - ' ' else s[i])
  }

  /** Upper-case hexadecimal digits read as the same number. */
  lemma {:induction false} NumeralIgnoresCase(s: string)
    requires AllDigits(s, 16)
    ensures AllDigits(UpperCase(s), 16) && Numeral(UpperCase(s), 16) == Numeral(s, 16)
  {
    if s != [] {
      var n := |s| - 1;
      NumeralIgnoresCase(s[..n]);
      assert UpperCase(s)[..n] == UpperCase(s[..n]);
    }
  }

  /** Length of the longest prefix made of digits. */
  function DigitRun(s: string, base: nat): (k: nat)
    ensures k <= |s| && AllDigits(s[..k], base)
    ensures k < |s| ==> !IsDigit(s[k], base)
  {
    if s == [] || !IsDigit(s[0], base) then 0 else 1 + DigitRun(s[1..], base)
  }

  // ---------------------------------------------------------------- sscanf

  /**
   A format: `Number(16, U32, f)` is %x into 32 bits followed by `f`, `Number(10, U16, f)` is %hu,
   `Hash` a literal '#', `AnyChar` is %c.
   */
  datatype Format = End | Number(base: nat, limit: nat, then_: Format) | Hash(then_: Format) | AnyChar(then_: Format)

  function Wrapped(n: nat, limit: nat): nat { if limit == 0 then n else n % limit }

  /** The values converted before the first directive that fails; their count is the result. */
  function Sscanf(format: Format, s: string): (values: seq<nat>) {
    match format
    case End => []
    case Hash(f) => if s != [] && s[0] == '#' then Sscanf(f, s[1..]) else []
    case AnyChar(f) => if s != [] then [s[0] as int] + Sscanf(f, s[1..]) else []
    case Number(base, limit, f) =>
      var k := DigitRun(s, base);
      if k == 0 then [] else [Wrapped(Numeral(s[..k], base), limit)] + Sscanf(f, s[k..])
  }

  /** Where a digit string ends inside a longer text. */
  lemma {:induction false} DigitRunExact(digits: string, rest: string, base: nat)
    requires AllDigits(digits, base)
    requires rest != [] ==> !IsDigit(rest[0], base)
    ensures DigitRun(digits + rest, base) == |digits|
  {
    if digits == [] {
      assert digits + rest == rest;
    } else {
      DigitRunExact(digits[1..], rest, base);
      assert (digits + rest)[1..] == digits[1..] + rest;
    }
  }

  /** A number followed by something that is not a digit. */
  lemma SscanfNumber(base: nat, limit: nat, f: Format, digits: string, rest: string)
    requires digits != [] && AllDigits(digits, base)
    requires rest != [] ==> !IsDigit(rest[0], base)
    ensures Sscanf(Number(base, limit, f), digits + rest)
         == [Wrapped(Numeral(digits, base), limit)] + Sscanf(f, rest)
  {
    DigitRunExact(digits, rest, base);
    assert (digits + rest)[..|digits|] == digits && (digits + rest)[|digits|..] == rest;
  }

  /** A number followed by a '#' and more. */
  lemma SscanfField(base: nat, limit: nat, f: Format, digits: string, rest: string)
    requires base <= 16 && digits != [] && AllDigits(digits, base)
    ensures Sscanf(Number(base, limit, Hash(f)), digits + ("#" + rest))
         == [Wrapped(Numeral(digits, base), limit)] + Sscanf(f, rest)
  {
    SscanfNumber(base, limit, Hash(f), digits, "#" + rest);
    assert ("#" + rest)[1..] == rest;
  }

  /** A number at the end of the text. */
  lemma SscanfLast(base: nat, limit: nat, f: Format, digits: string)
    requires digits != [] && AllDigits(digits, base)
    ensures Sscanf(Number(base, limit, f), digits) == [Wrapped(Numeral(digits, base), limit)] + Sscanf(f, "")
  {
    SscanfNumber(base, limit, f, digits, "");
    assert digits + "" == digits;
  }

  // ---------------------------------------------------------------- printf

  /** Not an upper-case letter. */
  predicate IsLower(c: char) { c <= '9' || 'a' <= c }

  function DigitChar(n: nat): (c: char)
    requires n < 16
    ensures DigitValue(c) == n && c != '#' && c != '|' && IsLower(c)
  {
    if n < 10 then '0' + n as char else 'a' + (n - 10) as char
  }

  lemma DivMod(n: nat, base: nat)
    requires base == 10 || base == 16
    ensures n / base * base + n % base == n && (n >= base ==> n / base < n)
  {
  }

  /** %x and %u: digits without leading zeros. */
  function Digits(n: nat, base: nat): (s: string)
    requires base == 10 || base == 16
    ensures s != [] && AllDigits(s, base) && '#' !in s && '|' !in s && IsLower(s[0])
  {
    DivMod(n, base);
    if n < base then [DigitChar(n)] else Digits(n / base, base) + [DigitChar(n % base)]
  }

  /** Printing and reading a number are inverse. */
  lemma {:induction false} DigitsNumeral(n: nat, base: nat)
    requires base == 10 || base == 16
    ensures Numeral(Digits(n, base), base) == n
  {
    DivMod(n, base);
    if n < base {
      assert Digits(n, base)[..0] == [];
      assert Numeral([], base) * base == 0;
    } else {
      DigitsNumeral(n / base, base);
      assert Digits(n, base)[..|Digits(n, base)| - 1] == Digits(n / base, base);
    }
  }

  function Zeros(n: nat): (s: string)
    ensures |s| == n && forall i :: 0 <= i < n ==> s[i] == '0'
  {
    seq(n, _ => '0')
  }

  /** %03x and %04x: at least `width` digits. */
  function Padded(n: nat, base: nat, width: nat): (s: string)
    requires base == 10 || base == 16
    ensures s != [] && AllDigits(s, base) && '#' !in s && '|' !in s && IsLower(s[0])
    ensures Numeral(s, base) == n
  {
    var digits := Digits(n, base);
    DigitsNumeral(n, base);
    if |digits| >= width then digits
    else
      LeadingZeros(width - |digits|, digits, base);
      Zeros(width - |digits|) + digits
  }

  lemma {:induction false} LeadingZeros(k: nat, s: string, base: nat)
    ensures Numeral(Zeros(k) + s, base) == Numeral(s, base)
  {
    if s != [] {
      LeadingZeros(k, s[..|s| - 1], base);
      assert (Zeros(k) + s)[..|Zeros(k) + s| - 1] == Zeros(k) + s[..|s| - 1];
    } else if k > 0 {
      LeadingZeros(k - 1, [], base);
      assert Zeros(k) + s == Zeros(k);
      assert Zeros(k)[..k - 1] == Zeros(k - 1) == Zeros(k - 1) + [];
    } else {
      assert Zeros(k) + s == [];
    }
  }

  // ---------------------------------------------------------------- strtok_r

  /** Position of the first '|', or the length of the text. */
  function BarAt(s: string): (k: nat)
    ensures k <= |s| && '|' !in s[..k] && (k < |s| ==> s[k] == '|')
  {
    if s == [] || s[0] == '|' then 0
    else
      var k := 1 + BarAt(s[1..]);
      assert s[..k] == [s[0]] + s[1..][..k - 1];
      k
  }

  lemma {:induction false} BarIsFound(s: string)
    ensures BarAt(s) < |s| <==> '|' in s
  {
  }

  /** The tokens `strtok_r` yields for the separator '|': empty ones are skipped. */
  function Tokens(s: string): (tokens: seq<string>)
    ensures forall i :: 0 <= i < |tokens| ==> tokens[i] != "" && '|' !in tokens[i]
    decreases |s|
  {
    if s == [] then []
    else if s[0] == '|' then Tokens(s[1..])
    else
      var k := BarAt(s);
      [s[..k]] + Tokens(s[k..])
  }

  lemma {:induction false} BarAfter(token: string, rest: string)
    requires '|' !in token && (rest != [] ==> rest[0] == '|')
    ensures BarAt(token + rest) == |token|
  {
    if token == [] {
      assert token + rest == rest;
    } else {
      BarAfter(token[1..], rest);
      assert (token + rest)[1..] == token[1..] + rest;
    }
  }

  /** A text split at its first bar. */
  lemma SplitAtBar(prefix: string, tail: string)
    requires '|' !in prefix
    ensures var text := prefix + ("|" + tail);
            '|' in text && BarAt(text) == |prefix| < |text| && text[|prefix| + 1..] == tail
  {
    var text := prefix + ("|" + tail);
    BarAfter(prefix, "|" + tail);
    assert text[|prefix|] == '|';
  }

  /** A non-empty token at the front, followed by nothing or by a separator. */
  lemma TokensFront(token: string, rest: string)
    requires token != "" && '|' !in token && (rest != [] ==> rest[0] == '|')
    ensures Tokens(token + rest) == [token] + Tokens(rest)
  {
    var s := token + rest;
    assert s[0] == token[0] && token[0] in token;
    BarAfter(token, rest);
    assert s[..|token|] == token && s[|token|..] == rest;
  }

  /** Each part followed by a bar. */
  function Barred(parts: seq<string>): (s: string)
    ensures parts != [] ==> s != "" && s[|s| - 1] == '|'
  {
    if parts == [] then "" else Barred(parts[..|parts| - 1]) + parts[|parts| - 1] + "|"
  }

  lemma BarredSnoc(parts: seq<string>, part: string)
    ensures Barred(parts + [part]) == Barred(parts) + part + "|"
  {
    assert (parts + [part])[..|parts|] == parts;
  }

  lemma Regroup(a: string, b: string, c: string, d: string, e: string)
    ensures (a + (b + c)) + d + e == a + (b + (c + d + e))
  {
  }

  lemma {:induction false} BarredFront(parts: seq<string>)
    requires parts != []
    ensures Barred(parts) == parts[0] + ("|" + Barred(parts[1..]))
  {
    var n := |parts| - 1;
    if n == 0 {
      assert parts[..0] == [] && parts[1..] == [];
      assert Barred(parts) == "" + parts[0] + "|" == parts[0] + ("|" + "");
    } else {
      var init, middle := parts[..n], parts[1..n];
      BarredFront(init);
      assert init[1..] == middle && init[0] == parts[0];
      assert parts[1..] == middle + [parts[n]];
      BarredSnoc(middle, parts[n]);
      Regroup(parts[0], "|", Barred(middle), parts[n], "|");
    }
  }

  /** The parts joined by bars. */
  function Joined(parts: seq<string>): string {
    if parts == [] then "" else Barred(parts)[..|Barred(parts)| - 1]
  }

  lemma JoinedFront(parts: seq<string>)
    requires |parts| > 1
    ensures Joined(parts) == parts[0] + ("|" + Joined(parts[1..]))
  {
    BarredFront(parts);
  }

  /** Joining parts with bars and taking tokens gives the parts back. */
  lemma {:induction false} TokensOfJoined(parts: seq<string>)
    requires forall i :: 0 <= i < |parts| ==> parts[i] != "" && '|' !in parts[i]
    ensures Tokens(Joined(parts)) == parts
  {
    if |parts| == 1 {
      BarredFront(parts);
      assert Joined(parts) == parts[0] == parts[0] + "";
      TokensFront(parts[0], "");
    } else if |parts| > 1 {
      var rest := Joined(parts[1..]);
      JoinedFront(parts);
      TokensOfJoined(parts[1..]);
      TokensFront(parts[0], "|" + rest);
      assert ("|" + rest)[1..] == rest;
      assert parts == [parts[0]] + parts[1..];
    }
  }
}
