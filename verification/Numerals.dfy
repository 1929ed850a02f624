/** Python's `int(text, base)`, `str.strip` and `str.casefold` on ISO-8859-1 text, and the numerals they read back. */
module Numerals {
  import opened Wrappers

  /** Decimal digits beyond which CPython refuses to convert a numeral whose base is not a power of two. */
  const MAXIMUM_DECIMAL_DIGITS: nat := 4300

  predicate IsSpace(c: char) {
    9 <= c as int <= 13 || 28 <= c as int <= 32 || c as int == 133 || c as int == 160
  }

  function StripLeft(s: string): string {
    if s != [] && IsSpace(s[0]) then StripLeft(s[1..]) else s
  }

  function StripRight(s: string): string {
    if s != [] && IsSpace(s[|s| - 1]) then StripRight(s[..|s| - 1]) else s
  }

  function Strip(s: string): string {
    StripRight(StripLeft(s))
  }

  predicate Stripped(s: string) {
    s == [] || (!IsSpace(s[0]) && !IsSpace(s[|s| - 1]))
  }

  /** Full case folding of one ISO-8859-1 character. */
  function FoldChar(c: char): string {
    if 'A' <= c <= 'Z' then [((c as int) + 32) as char]
    else if 192 <= c as int <= 222 && c as int != 215 then [((c as int) + 32) as char]
    else if c as int == 223 then "ss"
    else if c as int == 181 then [956 as char]
    else [c]
  }

  function Casefold(s: string): string {
    if s == [] then [] else FoldChar(s[0]) + Casefold(s[1..])
  }

  predicate Ascii(s: string) {
    forall i :: 0 <= i < |s| ==> s[i] as int < 128
  }

  function LowerAscii(c: char): char {
    if 'A' <= c <= 'Z' then (c as int + 32) as char else c
  }

  /** The two strings differ at most in the case of letters. */
  predicate SameButCase(s: string, t: string) {
    |s| == |t| && forall i :: 0 <= i < |s| ==> LowerAscii(s[i]) == LowerAscii(t[i])
  }

  lemma {:induction false} FoldsToLower(s: string)
    requires Ascii(s)
    ensures |Casefold(s)| == |s| && forall i :: 0 <= i < |s| ==> Casefold(s)[i] == LowerAscii(s[i])
  {
    if s != [] {
      FoldsToLower(s[1..]);
    }
  }

  predicate Lower(s: string) {
    forall i :: 0 <= i < |s| ==> !('A' <= s[i] <= 'Z')
  }

  /** Two ASCII names fold alike exactly when they differ at most in case, and then to the one without capitals. */
  lemma FoldingIgnoresCase(s: string, t: string)
    requires Ascii(s) && Ascii(t)
    ensures Casefold(s) == Casefold(t) <==> SameButCase(s, t)
    ensures SameButCase(s, t) && Lower(t) ==> Casefold(s) == t
  {
    hide Casefold;
    FoldsToLower(s);
    FoldsToLower(t);
    assert SameButCase(s, t) ==> Casefold(s) == Casefold(t);
    assert Casefold(s) == Casefold(t) ==> forall i :: 0 <= i < |s| ==> Casefold(s)[i] == Casefold(t)[i];
    if SameButCase(s, t) && Lower(t) {
      assert Casefold(s) == t;
    }
  }

  function DigitValue(c: char): nat {
    if '0' <= c <= '9' then c as int - '0' as int
    else if 'a' <= c <= 'z' then c as int - 'a' as int + 10
    else if 'A' <= c <= 'Z' then c as int - 'A' as int + 10
    else 36
  }

  /** Digits with single underscores between them; `bare` while no digit precedes. */
  function Digits(s: string, base: nat, acc: nat, bare: bool): Option<nat> {
    if s == [] then if bare then None else Some(acc)
    else if s[0] == '_' then if bare then None else Digits(s[1..], base, acc, true)
    else if DigitValue(s[0]) < base then Digits(s[1..], base, acc * base + DigitValue(s[0]), false)
    else None
  }

  function DigitCount(s: string): nat {
    if s == [] then 0 else DigitCount(s[1..]) + if s[0] == '_' then 0 else 1
  }

  /** An optional `0x`, after which one underscore is allowed. */
  function Unprefixed(s: string, base: nat): string {
    if base == 16 && |s| >= 2 && s[0] == '0' && (s[1] == 'x' || s[1] == 'X')
    then if |s| >= 3 && s[2] == '_' then s[3..] else s[2..]
    else s
  }

  function Magnitude(s: string, base: nat): Option<nat> {
    if base != 16 && DigitCount(s) > MAXIMUM_DECIMAL_DIGITS then None
    else Digits(Unprefixed(s, base), base, 0, true)
  }

  function PyInt(text: string, base: nat): Option<int> {
    var s := Strip(text);
    if s != [] && s[0] == '-' then
      var m := Magnitude(s[1..], base);
      if m == None then None else var n: int := m.value; Some(-n)
    else
      var m := Magnitude(if s != [] && s[0] == '+' then s[1..] else s, base);
      if m == None then None else var n: int := m.value; Some(n)
  }

  // ---------------------------------------------------------------- rendering

  function DigitChar(v: nat): char
    requires v < 16
  {
    if v < 10 then (v + '0' as int) as char else (v - 10 + 'a' as int) as char
  }

  function Numeral(n: nat, base: nat): string
    requires 2 <= base <= 16
  {
    if n < base then [DigitChar(n)] else Numeral(n / base, base) + [DigitChar(n % base)]
  }

  predicate AllDigits(s: string, base: nat) {
    forall i :: 0 <= i < |s| ==> DigitValue(s[i]) < base && s[i] != '_'
  }

  lemma {:induction false} DigitsAppend(s: string, c: char, base: nat, acc: nat, bare: bool)
    requires DigitValue(c) < base && c != '_' && (Digits(s, base, acc, bare).Some? || s == [])
    ensures var v := if s == [] then acc else Digits(s, base, acc, bare).value;
            Digits(s + [c], base, acc, bare) == Some(v * base + DigitValue(c))
  {
    if s == [] {
      assert [] + [c] == [c] && [c][1..] == [];
    } else {
      assert (s + [c])[1..] == s[1..] + [c];
      if s[0] == '_' {
        DigitsAppend(s[1..], c, base, acc, true);
      } else {
        DigitsAppend(s[1..], c, base, acc * base + DigitValue(s[0]), false);
      }
    }
  }

  /** Reading a rendered numeral gives the number back; it consists of digits only. */
  lemma {:induction false} NumeralReads(n: nat, base: nat)
    requires base == 10 || base == 16
    ensures Digits(Numeral(n, base), base, 0, true) == Some(n)
    ensures |Numeral(n, base)| >= 1 && AllDigits(Numeral(n, base), base)
    ensures forall i :: 0 <= i < |Numeral(n, base)| ==> !IsSpace(Numeral(n, base)[i])
  {
    if n < base {
      assert Numeral(n, base)[1..] == [];
    } else {
      var more := Numeral(n / base, base);
      NumeralReads(n / base, base);
      DigitsAppend(more, DigitChar(n % base), base, 0, true);
      hide Digits;
      assert Numeral(n, base) == more + [DigitChar(n % base)];
    }
  }

  lemma StripNothing(s: string)
    requires Stripped(s)
    ensures Strip(s) == s
  {
  }

  // ---------------------------------------------------------------- what a numeral means

  /** The positional value of a string of digits. */
  function Value(s: string, base: nat): nat {
    if s == [] then 0 else Value(s[..|s| - 1], base) * base + DigitValue(s[|s| - 1])
  }

  /** The digits of a numeral without the underscores between them. */
  function Bare(s: string): string {
    if s == [] then [] else (if s[0] == '_' then [] else [s[0]]) + Bare(s[1..])
  }

  /** Digits with single underscores between them: none at either end, none doubled. */
  predicate Grouped(s: string, base: nat) {
    && s != [] && s[0] != '_' && s[|s| - 1] != '_'
    && (forall i :: 0 <= i < |s| ==> s[i] == '_' || DigitValue(s[i]) < base)
    && (forall i :: 0 < i < |s| && s[i] == '_' ==> s[i - 1] != '_')
  }

  lemma {:induction false} DigitsGrouped(s: string, base: nat, acc: nat)
    requires s != [] && base <= 16
    ensures Digits(s, base, acc, true).Some? <==> Grouped(s, base)
    decreases |s|, 1
  {
    assert DigitValue('_') == 36;
    if s[0] != '_' && DigitValue(s[0]) < base {
      DigitsContinue(s, base, acc);
    }
  }

  lemma {:induction false} DigitsContinue(s: string, base: nat, acc: nat)
    requires s != [] && base <= 16 && s[0] != '_' && DigitValue(s[0]) < base
    ensures Digits(s, base, acc, true).Some? <==> Grouped(s, base)
    decreases |s|, 0
  {
    var rest, next := s[1..], acc * base + DigitValue(s[0]);
    if rest != [] {
      assert forall i :: 0 <= i < |rest| ==> rest[i] == s[i + 1];
      if rest[0] == '_' {
        var more := rest[1..];
        assert forall i :: 0 <= i < |more| ==> more[i] == s[i + 2];
        if more != [] {
          DigitsGrouped(more, base, next);
          GroupedSplit(s, base, 2);
        } else {
          assert s[|s| - 1] == '_' && Digits(more, base, next, true) == None;
          assert Digits(rest, base, next, false) == None;
        }
      } else {
        DigitsGrouped(rest, base, next);
        assert Digits(rest, base, next, false) == Digits(rest, base, next, true);
        GroupedSplit(s, base, 1);
      }
    }
  }

  /** What follows the first digit, past an underscore if there is one, is grouped exactly when the whole is. */
  lemma GroupedSplit(s: string, base: nat, k: nat)
    requires 1 <= k <= 2 && k < |s| && s[0] != '_' && DigitValue(s[0]) < base && (k == 2 <==> s[1] == '_')
    ensures Grouped(s, base) <==> Grouped(s[k..], base)
  {
    var rest := s[k..];
    assert forall i :: 0 <= i < |rest| ==> rest[i] == s[i + k];
    if Grouped(rest, base) {
      forall i | 0 <= i < |s|
        ensures s[i] == '_' || DigitValue(s[i]) < base
        ensures i > 0 && s[i] == '_' ==> s[i - 1] != '_'
      {
        if i >= k {
          assert s[i] == rest[i - k];
          if i > k {
            assert s[i - 1] == rest[i - k - 1];
          }
        }
      }
    }
    if Grouped(s, base) {
      forall i | 0 <= i < |rest|
        ensures rest[i] == '_' || DigitValue(rest[i]) < base
        ensures i > 0 && rest[i] == '_' ==> rest[i - 1] != '_'
      {
        assert rest[i] == s[i + k];
      }
    }
  }

  lemma {:induction false} ValueShift(s: string, base: nat, acc: nat, bare: bool)
    requires Digits(s, base, acc, bare).Some?
    ensures Digits(s, base, acc, bare).value == acc * Power(base, |Bare(s)|) + Value(Bare(s), base)
  {
    if s != [] {
      hide Value, Power;
      if s[0] == '_' {
        ValueShift(s[1..], base, acc, true);
        assert [] + Bare(s[1..]) == Bare(s[1..]);
      } else {
        var d, rest := DigitValue(s[0]), Bare(s[1..]);
        ValueShift(s[1..], base, acc * base + d, false);
        ValueCons(s[0], rest, base);
        PowerStep(base, |rest|);
        Distribute(acc, base, d, Power(base, |rest|));
      }
    }
  }

  lemma PowerStep(base: nat, n: nat)
    ensures Power(base, n + 1) == base * Power(base, n)
  {
  }

  lemma Distribute(acc: nat, base: nat, d: nat, power: nat)
    ensures (acc * base + d) * power == acc * (base * power) + d * power
  {
  }

  function Power(base: nat, n: nat): nat {
    if n == 0 then 1 else base * Power(base, n - 1)
  }

  lemma {:induction false} ValueCons(c: char, s: string, base: nat)
    ensures Value([c] + s, base) == DigitValue(c) * Power(base, |s|) + Value(s, base)
  {
    if s == [] {
      assert [c] + s == [c] && [c][..0] == [];
    } else {
      var k := |s| - 1;
      assert ([c] + s)[..k + 1] == [c] + s[..k] && ([c] + s)[k + 1] == s[k];
      ValueCons(c, s[..k], base);
      Regroup(DigitValue(c), Power(base, k), Value(s[..k], base), base, DigitValue(s[k]));
    }
  }

  lemma Regroup(d: nat, power: nat, v: nat, base: nat, e: nat)
    ensures (d * power + v) * base + e == d * (base * power) + (v * base + e)
  {
  }

  /** A grouped numeral is accepted and has its positional value; nothing else is accepted. */
  lemma DigitsMean(s: string, base: nat)
    requires base <= 16
    ensures Digits(s, base, 0, true).Some? <==> Grouped(s, base)
    ensures Grouped(s, base) ==> Digits(s, base, 0, true) == Some(Value(Bare(s), base))
  {
    if s != [] {
      DigitsGrouped(s, base, 0);
      if Grouped(s, base) {
        ValueShift(s, base, 0, true);
      }
    }
  }

  predicate Blank(pad: string) {
    forall i :: 0 <= i < |pad| ==> IsSpace(pad[i]) && pad[i] != '\n'
  }

  /** White space, an optional sign, a grouped numeral and white space are read as the signed positional value. */
  lemma PyIntMeans(left: string, sign: string, s: string, right: string, base: nat)
    requires Blank(left) && Blank(right) && sign in {"", "+", "-"} && Grouped(s, base)
    requires base == 16 || (base == 10 && DigitCount(s) <= MAXIMUM_DECIMAL_DIGITS)
    ensures PyInt(left + sign + s + right, base)
         == Some(if sign == "-" then -(Value(Bare(s), base) as int) else Value(Bare(s), base))
  {
    hide PyInt, Strip, Stripped, Magnitude, Value, Bare, Grouped, Blank, DigitCount, IsSpace;
    GroupedEnds(s, base);
    SignedEnds(sign, s);
    StripPads(left, sign + s, right);
    Reassociated(left, sign, s, right);
    MagnitudeMeans(s, base);
    SignRead(left + sign + s + right, sign, s, base);
  }

  lemma Reassociated(a: string, b: string, c: string, d: string)
    ensures a + b + c + d == a + (b + c) + d
  {
  }

  lemma SignRead(text: string, sign: string, s: string, base: nat)
    requires sign in {"", "+", "-"} && s != [] && s[0] != '-' && s[0] != '+'
    requires Strip(text) == sign + s && Magnitude(s, base).Some?
    ensures PyInt(text, base)
         == Some(if sign == "-" then -(Magnitude(s, base).value as int) else Magnitude(s, base).value)
  {
    hide Strip, Magnitude;
    if sign != "" {
      assert (sign + s)[1..] == s;
    } else {
      assert sign + s == s;
    }
  }

  lemma SignedEnds(sign: string, s: string)
    requires sign in {"", "+", "-"} && s != [] && !IsSpace(s[0]) && !IsSpace(s[|s| - 1])
    ensures Stripped(sign + s) && sign + s != []
  {
  }

  lemma MagnitudeMeans(s: string, base: nat)
    requires Grouped(s, base) && (base == 16 || (base == 10 && DigitCount(s) <= MAXIMUM_DECIMAL_DIGITS))
    ensures Magnitude(s, base) == Some(Value(Bare(s), base))
  {
    DigitsMean(s, base);
    GroupedUnprefixed(s, base);
    hide Value, Bare, Digits, Grouped;
  }

  lemma GroupedEnds(s: string, base: nat)
    requires Grouped(s, base) && base <= 16
    ensures s != [] && !IsSpace(s[0]) && !IsSpace(s[|s| - 1]) && s[0] != '-' && s[0] != '+'
  {
    assert DigitValue('-') == 36 && DigitValue('+') == 36;
  }

  lemma GroupedUnprefixed(s: string, base: nat)
    requires Grouped(s, base) && base <= 16
    ensures Unprefixed(s, base) == s
  {
  }

  /** The hexadecimal prefix may be written, in either case, and changes nothing. */
  lemma PrefixIgnored(s: string)
    requires Grouped(s, 16)
    ensures PyInt("0x" + s, 16) == PyInt("0X" + s, 16) == Some(Value(Bare(s), 16))
  {
    var lower, upper := "0x" + s, "0X" + s;
    GroupedEnds(s, 16);
    StripNothing(lower);
    StripNothing(upper);
    assert lower[2..] == s == upper[2..];
    DigitsMean(s, 16);
  }

  function Unsigned(s: string): string {
    if s != [] && (s[0] == '-' || s[0] == '+') then s[1..] else s
  }

  /** The digits of what is read are grouped; in base 10 there are not too many. */
  predicate Readable(digits: string, base: nat) {
    Grouped(digits, base) && (base == 10 ==> DigitCount(digits) <= MAXIMUM_DECIMAL_DIGITS)
  }

  /**
   Exactly what is read as a number: white space, at most one sign, in base 16 at most one prefix, and then nothing but
   grouped digits. The value is theirs, with the sign.
  */
  lemma PyIntExactly(text: string, base: nat)
    requires base == 10 || base == 16
    ensures var s := Strip(text); var digits := Unprefixed(Unsigned(s), base);
            PyInt(text, base) == if !Readable(digits, base) then None
                                 else Some(if s[0] == '-' then -(Value(Bare(digits), base) as int)
                                           else Value(Bare(digits), base))
  {
    hide Strip, Grouped, Value, Bare, Digits, DigitCount;
    var digits := Unprefixed(Unsigned(Strip(text)), base);
    DigitsMean(digits, base);
    NothingGrouped(base);
  }

  lemma NothingGrouped(base: nat)
    ensures !Grouped("", base)
  {
  }

  /** `text` spells `n`: digits of either case, leading zeros, single underscores, a plus sign, white space around. */
  ghost predicate Writes(text: string, base: nat, n: nat) {
    exists left, sign, digits, right :: Spells(text, base, n, left, sign, digits, right)
  }

  predicate Spells(text: string, base: nat, n: nat, left: string, sign: string, digits: string, right: string) {
    && text == left + sign + digits + right && Blank(left) && Blank(right) && (sign == "" || sign == "+")
    && Grouped(digits, base) && Value(Bare(digits), base) == n
    && (base == 10 ==> DigitCount(digits) <= MAXIMUM_DECIMAL_DIGITS)
  }

  lemma WritesReads(text: string, base: nat, n: nat)
    requires Writes(text, base, n) && (base == 10 || base == 16)
    ensures PyInt(text, base) == Some(n)
  {
    var left, sign, digits, right :| Spells(text, base, n, left, sign, digits, right);
    hide PyInt, Value, Bare, Grouped, DigitCount;
    PyIntMeans(left, sign, digits, right, base);
  }

  /** Such a text has no character that ends a line or separates fields. */
  lemma WritesPlain(text: string, base: nat, n: nat)
    requires Writes(text, base, n) && (base == 10 || base == 16)
    ensures text != [] && forall i :: 0 <= i < |text| ==> text[i] != '\n' && text[i] != ';' && text[i] != ':'
  {
    var left, sign, digits, right :| Spells(text, base, n, left, sign, digits, right);
    hide Value, Bare, DigitCount;
    assert DigitValue(';') == DigitValue(':') == DigitValue('\n') == 36;
    forall i | 0 <= i < |text|
      ensures text[i] != '\n' && text[i] != ';' && text[i] != ':'
    {
      assert text[i] == if i < |left| then left[i] else if i < |left| + |sign| then sign[i - |left|]
                        else if i < |left| + |sign| + |digits| then digits[i - |left| - |sign|]
                        else right[i - |left| - |sign| - |digits|];
    }
  }

  /** The plain rendering is one such spelling. */
  lemma NumeralWrites(n: nat, base: nat)
    requires base == 16 || (base == 10 && |Numeral(n, 10)| <= MAXIMUM_DECIMAL_DIGITS)
    ensures Writes(Numeral(n, base), base, n)
  {
    hide Value, Bare, Grouped, DigitCount, Numeral, Digits, IsSpace;
    NumeralReads(n, base);
    NumeralValue(n, base);
    BareOfDigits(Numeral(n, base), base);
    WritesBare(Numeral(n, base), base, n);
  }

  lemma WritesBare(digits: string, base: nat, n: nat)
    requires Grouped(digits, base) && Value(Bare(digits), base) == n
    requires base == 10 ==> DigitCount(digits) <= MAXIMUM_DECIMAL_DIGITS
    ensures Writes(digits, base, n)
  {
    hide Value, Bare, Grouped, DigitCount;
    assert "" + "" + digits + "" == digits;
    assert Spells(digits, base, n, "", "", digits, "");
  }

  lemma {:induction false} BareOfDigits(s: string, base: nat)
    requires AllDigits(s, base)
    ensures Bare(s) == s && DigitCount(s) == |s|
    ensures s != [] && base <= 16 ==> Grouped(s, base)
  {
    if s != [] {
      BareOfDigits(s[1..], base);
    }
  }

  lemma {:induction false} NumeralValue(n: nat, base: nat)
    requires base == 10 || base == 16
    ensures Value(Numeral(n, base), base) == n
  {
    if n < base {
      assert Numeral(n, base)[..0] == [];
    } else {
      NumeralValue(n / base, base);
      assert Numeral(n, base)[..|Numeral(n, base)| - 1] == Numeral(n / base, base);
    }
  }

  lemma PyIntReads(n: nat, base: nat)
    requires base == 16 || (base == 10 && |Numeral(n, 10)| <= MAXIMUM_DECIMAL_DIGITS)
    ensures PyInt(Numeral(n, base), base) == Some(n)
  {
    var s := Numeral(n, base);
    NumeralReads(n, base);
    NumeralValue(n, base);
    BareOfDigits(s, base);
    hide Numeral, Value, Bare, PyInt, Grouped, DigitCount;
    PyIntMeans("", "", s, "", base);
    assert "" + "" + s + "" == s;
  }

  /** Hence different numbers have different numerals. */
  lemma NumeralInjective(a: nat, b: nat, base: nat)
    requires (base == 10 || base == 16) && Numeral(a, base) == Numeral(b, base)
    ensures a == b
  {
    NumeralReads(a, base);
    NumeralReads(b, base);
  }

  lemma {:induction false} StripPadded(pad: string, s: string)
    requires Blank(pad) && Stripped(s)
    ensures Strip(pad + s) == s
    decreases |pad|
  {
    if pad == [] {
      assert pad + s == s;
      StripNothing(s);
    } else {
      assert (pad + s)[1..] == pad[1..] + s;
      StripPadded(pad[1..], s);
    }
  }

  /** White space on either side is removed, and nothing else. */
  lemma {:induction false} StripPads(left: string, s: string, right: string)
    requires Blank(left) && Blank(right) && Stripped(s)
    ensures Strip(left + s + right) == s
    decreases |left|
  {
    if left == [] {
      assert left + s + right == s + right;
      if s == [] {
        assert s + right == right + s;
        StripPadded(right, s);
      } else {
        StripRightPads(s, right);
      }
    } else {
      assert (left + s + right)[1..] == left[1..] + s + right;
      StripPads(left[1..], s, right);
    }
  }

  lemma {:induction false} StripRightPads(s: string, right: string)
    requires Blank(right) && Stripped(s) && s != []
    ensures StripRight(s + right) == s
    decreases |right|
  {
    if right == [] {
      assert s + right == s;
    } else {
      assert (s + right)[..|s + right| - 1] == s + right[..|right| - 1];
      StripRightPads(s, right[..|right| - 1]);
    }
  }
}
