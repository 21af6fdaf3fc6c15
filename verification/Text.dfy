/**
The string operations the clients use: ASCII case mapping, trimming, and
printing and parsing of natural numbers in a given base.
*/
module Text {
  import opened Models

  predicate IsSpace(c: char) {
    c == ' ' || c == '\t' || c == '\n' || c == '\r' || c == '\U{0B}' || c == '\U{0C}'
  }

  function LowerChar(c: char): char {
    if 'A' <= c <= 'Z' then (c as int + 32) as char else c
  }

  function UpperChar(c: char): char {
    if 'a' <= c <= 'z' then (c as int - 32) as char else c
  }

  function Lower(s: string): (r: string)
    ensures |r| == |s|
  {
    seq(|s|, i requires 0 <= i < |s| => LowerChar(s[i]))
  }

  function Upper(s: string): (r: string)
    ensures |r| == |s|
  {
    seq(|s|, i requires 0 <= i < |s| => UpperChar(s[i]))
  }

  function TrimLeft(s: string): string {
    if s != [] && IsSpace(s[0]) then TrimLeft(s[1..]) else s
  }

  function TrimRight(s: string): string {
    if s != [] && IsSpace(s[|s| - 1]) then TrimRight(s[..|s| - 1]) else s
  }

  function Strip(s: string): string {
    TrimRight(TrimLeft(s))
  }

  /** Neither end is white space. */
  predicate Trimmed(s: string) {
    s != [] ==> !IsSpace(s[0]) && !IsSpace(s[|s| - 1])
  }

  lemma StripTrimmed(s: string)
    requires Trimmed(s)
    ensures Strip(s) == s
  {
  }

  lemma {:induction false} TrimRightKeepsHead(s: string)
    requires s != [] ==> !IsSpace(s[0])
    ensures Trimmed(TrimRight(s))
    ensures s != [] ==> TrimRight(s) != [] && TrimRight(s)[0] == s[0]
  {
    if s != [] && IsSpace(s[|s| - 1]) {
      TrimRightKeepsHead(s[..|s| - 1]);
    }
  }

  lemma {:induction false} TrimLeftHead(s: string)
    ensures var t := TrimLeft(s); t != [] ==> !IsSpace(t[0])
  {
    if s != [] && IsSpace(s[0]) {
      TrimLeftHead(s[1..]);
    }
  }

  lemma StripIsTrimmed(s: string)
    ensures Trimmed(Strip(s))
  {
    TrimLeftHead(s);
    TrimRightKeepsHead(TrimLeft(s));
  }

  // ---- numbers ----

  function DigitChar(d: nat): (c: char)
    requires d < 16
  {
    if d < 10 then ('0' as int + d) as char else ('A' as int + (d - 10)) as char
  }

  /** The value of a digit in the given base, in either case; None for any other character. */
  function DigitValue(c: char, base: nat): Option<nat>
    requires base == 10 || base == 16
  {
    var v: int := if '0' <= c <= '9' then c as int - '0' as int
                  else if 'A' <= c <= 'F' then c as int - 'A' as int + 10
                  else if 'a' <= c <= 'f' then c as int - 'a' as int + 10
                  else 16;
    if v < base then Some(v) else None
  }

  /** Print without padding, upper-case digits. */
  function Print(n: nat, base: nat): (s: string)
    requires base == 10 || base == 16
    ensures s != []
    ensures forall i :: 0 <= i < |s| ==> DigitValue(s[i], base).Some?
  {
    if n < base then [DigitChar(n)] else Print(n / base, base) + [DigitChar(n % base)]
  }

  /** Print an integer, with a minus sign when it is negative. */
  function PrintSigned(n: int, base: nat): string
    requires base == 10 || base == 16
  {
    if n < 0 then "-" + Print(-n, base) else Print(n, base)
  }

  /** Parse a non-empty string of digits. */
  function Parse(s: string, base: nat): Option<nat>
    requires base == 10 || base == 16
  {
    if s == [] then None else ParseDigits(s, base)
  }

  /** Parse a non-empty string of digits with an optional sign. */
  function ParseSigned(s: string, base: nat): Option<int>
    requires base == 10 || base == 16
  {
    if s == [] || (s[0] != '-' && s[0] != '+') then Parse(s, base)
    else match Parse(s[1..], base)
      case None => None
      case Some(n) => Some((if s[0] == '-' then -1 else 1) * n)
  }

  function ParseDigits(s: string, base: nat): Option<nat>
    requires base == 10 || base == 16
  {
    if s == [] then Some(0)
    else
      var front := ParseDigits(s[..|s| - 1], base);
      var last := DigitValue(s[|s| - 1], base);
      if front.Some? && last.Some? then Some(front.value * base + last.value) else None
  }

  lemma {:induction false} ParsePrint(n: nat, base: nat)
    requires base == 10 || base == 16
    ensures Parse(Print(n, base), base) == Some(n)
  {
    var s := Print(n, base);
    assert DigitValue(DigitChar(n % base), base) == Some(n % base);
    if n < base {
      assert s == [DigitChar(n)] && s[..0] == [];
      assert ParseDigits(s[..0], base) == Some(0);
      assert n % base == n && 0 * base == 0;
    } else {
      ParsePrint(n / base, base);
      assert s[..|s| - 1] == Print(n / base, base);
    }
  }

  lemma ParsePrintSigned(n: int, base: nat)
    requires base == 10 || base == 16
    ensures ParseSigned(PrintSigned(n, base), base) == Some(n)
  {
    if n < 0 {
      ParsePrint(-n, base);
    } else {
      ParsePrint(n, base);
      var s := Print(n, base);
      assert DigitValue(s[0], base).Some?;
    }
  }

  function Zeros(k: nat): string {
    if k == 0 then [] else ['0'] + Zeros(k - 1)
  }

  /** Pad on the left with zeros to at least `width` characters. */
  function PadLeft(s: string, width: nat): string {
    if |s| >= width then s else Zeros(width - |s|) + s
  }

  lemma {:induction false} ParseZeros(k: nat, base: nat)
    requires base == 10 || base == 16
    ensures ParseDigits(Zeros(k), base) == Some(0)
  {
    if k > 0 {
      ZerosSnoc(k - 1);
      assert Zeros(k)[..k - 1] == Zeros(k - 1);
      ParseZeros(k - 1, base);
    }
  }

  lemma {:induction false} ParseIgnoresLeadingZeros(k: nat, s: string, base: nat)
    requires base == 10 || base == 16
    ensures ParseDigits(Zeros(k) + s, base) == ParseDigits(s, base)
  {
    if s == [] {
      assert Zeros(k) + s == Zeros(k);
      ParseZeros(k, base);
    } else {
      var all := Zeros(k) + s;
      assert all[..|all| - 1] == Zeros(k) + s[..|s| - 1];
      ParseIgnoresLeadingZeros(k, s[..|s| - 1], base);
    }
  }

  lemma {:induction false} ZerosSnoc(k: nat)
    ensures Zeros(k + 1) == Zeros(k) + ['0'] && |Zeros(k)| == k
  {
    if k > 0 {
      ZerosSnoc(k - 1);
    }
  }
}
