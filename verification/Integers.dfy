/** `parseInteger` and `getRadix` of src/utility.ts and `parseDb` of
    src/redis/uri/tcp.ts. Values are exact; they are the JavaScript numbers for
    results below 2^53. */
module Integers {
  import opened Wrappers
  import opened Letters

  type Radix = r: nat | r == 2 || r == 8 || r == 10 || r == 16 witness 10

  /** What `trim` removes: the white space and line terminators of ECMA-262. */
  predicate IsSpace(c: char) {
    || '\U{0009}' <= c <= '\U{000D}' || c == ' ' || c == '\U{00A0}' || c == '\U{1680}'
    || '\U{2000}' <= c <= '\U{200A}' || c == '\U{2028}' || c == '\U{2029}' || c == '\U{202F}'
    || c == '\U{205F}' || c == '\U{3000}' || c == '\U{FEFF}'
  }

  function LowerChar(c: char): char {
    if 'A' <= c <= 'Z' then (c as int + 32) as char else c
  }

  /** `toLowerCase`, on ASCII letters. No other letter is lowered to one that a
      literal may contain. */
  function Lower(s: string): string {
    seq(|s|, i requires 0 <= i < |s| => LowerChar(s[i]))
  }

  function TrimLeft(s: string): string {
    if s != "" && IsSpace(s[0]) then TrimLeft(s[1..]) else s
  }

  function TrimRight(s: string): string {
    if s != "" && IsSpace(s[|s| - 1]) then TrimRight(s[..|s| - 1]) else s
  }

  function Trim(s: string): string {
    TrimRight(TrimLeft(s))
  }

  /** The value of a digit; 16 for anything that is none. */
  function DigitValue(c: char): nat {
    if '0' <= c <= '9' then (c - '0') as int
    else if 'a' <= c <= 'f' then (c - 'a') as int + 10
    else 16
  }

  predicate AllDigits(s: string, radix: Radix) {
    forall i :: 0 <= i < |s| ==> DigitValue(s[i]) < radix
  }

  // The four alternatives of the regular expression.

  predicate OctalForm(t: string) {
    |t| >= 1 && t[0] == '0' && AllDigits(t[1..], 8)
  }

  predicate HexForm(t: string) {
    |t| >= 3 && t[..2] == "0x" && AllDigits(t[2..], 16)
  }

  predicate BinaryForm(t: string) {
    |t| >= 3 && t[..2] == "0b" && AllDigits(t[2..], 2)
  }

  predicate DecimalForm(t: string) {
    |t| >= 1 && '1' <= t[0] <= '9' && AllDigits(t, 10)
  }

  /** The radix and what to parse, tried in the order of the source. */
  function GetRadix(s: string): Option<(Radix, string)> {
    var t := Trim(Lower(s));
    if OctalForm(t) then Some((8, t))
    else if HexForm(t) then Some((16, t[2..]))
    else if BinaryForm(t) then Some((2, t[2..]))
    else if DecimalForm(t) then Some((10, t))
    else None
  }

  // Arithmetic written out for the four radices, which keeps it linear.

  function Times(v: nat, radix: Radix): nat {
    if radix == 2 then 2 * v else if radix == 8 then 8 * v else if radix == 10 then 10 * v else 16 * v
  }

  function Over(v: nat, radix: Radix): nat {
    if radix == 2 then v / 2 else if radix == 8 then v / 8 else if radix == 10 then v / 10 else v / 16
  }

  function Rest(v: nat, radix: Radix): (r: nat)
    ensures r < radix
  {
    if radix == 2 then v % 2 else if radix == 8 then v % 8 else if radix == 10 then v % 10 else v % 16
  }

  /** `Number.parseInt` on digits of the radix. */
  function Value(s: string, radix: Radix): nat {
    if s == "" then 0 else Times(Value(s[..|s| - 1], radix), radix) + DigitValue(s[|s| - 1])
  }

  /** `None` stands for the thrown ParseError. */
  function ParseInteger(s: string): Option<nat> {
    match GetRadix(s)
    case None => None
    case Some((radix, digits)) => Some(Value(digits, radix))
  }

  /** The alternatives exclude each other, so their order does not matter. */
  lemma FormsExclusive(t: string)
    ensures !(OctalForm(t) && HexForm(t)) && !(OctalForm(t) && BinaryForm(t)) && !(OctalForm(t) && DecimalForm(t))
    ensures !(HexForm(t) && BinaryForm(t)) && !(HexForm(t) && DecimalForm(t)) && !(BinaryForm(t) && DecimalForm(t))
  {
    if |t| >= 3 {
      assert t[1..][0] == t[1] && t[..2][1] == t[1] && t[..2][0] == t[0];
      assert "0x"[1] == 'x' && "0b"[1] == 'b' && "0x"[0] == '0' && "0b"[0] == '0';
    }
  }

  // ---------------------------------------------------------------------------
  // Printing.

  function DigitChar(d: nat): char
    requires d < 16
  {
    if d < 10 then '0' + d as char else 'a' + (d - 10) as char
  }

  /** `n` in the radix without leading zeros; nothing for 0. */
  function Digits(n: nat, radix: Radix): string
  {
    if n == 0 then "" else Digits(Over(n, radix), radix) + [DigitChar(Rest(n, radix))]
  }

  function Zeros(k: nat): string {
    seq(k, _ => '0')
  }

  lemma {:induction false} DigitsAreDigits(n: nat, radix: Radix)
    ensures AllDigits(Digits(n, radix), radix)
    ensures n > 0 ==> |Digits(n, radix)| > 0 && Digits(n, radix)[0] != '0'
    decreases n
  {
    if n > 0 {
      DigitsAreDigits(Over(n, radix), radix);
    }
  }

  lemma OverTimes(v: nat, d: nat, radix: Radix)
    ensures d < radix ==> Over(Times(v, radix) + d, radix) == v && Rest(Times(v, radix) + d, radix) == d
    ensures Times(Over(v, radix), radix) + Rest(v, radix) == v
  {
  }

  lemma ValueSnoc(s: string, c: char, radix: Radix)
    ensures Value(s + [c], radix) == Times(Value(s, radix), radix) + DigitValue(c)
  {
    assert (s + [c])[..|s|] == s;
  }

  /** What the digits are, and that a digit string is read by its positions. */
  lemma ValueIsPositional(s: string, i: nat, radix: Radix)
    requires i < radix
    ensures "0123456789abcdef"[i] == DigitChar(i) && DigitValue("0123456789abcdef"[i]) == i
    ensures Value("", radix) == 0
    ensures Value(s + ["0123456789abcdef"[i]], radix) == Value(s, radix) * radix + i
  {
    ValueSnoc(s, "0123456789abcdef"[i], radix);
    TimesIs(Value(s, radix), radix);
  }

  lemma TimesIs(v: nat, radix: Radix)
    ensures Times(v, radix) == v * radix
  {
    if radix == 2 {
      assert v * radix == v * 2;
    } else if radix == 8 {
      assert v * radix == v * 8;
    } else if radix == 10 {
      assert v * radix == v * 10;
    } else {
      assert v * radix == v * 16;
    }
  }

  /** Nothing else is a digit. */
  lemma DigitIff(c: char, radix: Radix)
    ensures DigitValue(c) < radix <==> c in "0123456789abcdef"[..radix]
  {
    var digits := "0123456789abcdef";
    assert forall i: nat :: i < 16 ==> DigitValue(digits[i]) == i;
    if DigitValue(c) < radix {
      assert digits[DigitValue(c)] == c && digits[..radix][DigitValue(c)] == c;
    }
  }

  /** Leading zeros do not change a value. */
  lemma {:induction false} ValueOfDigits(k: nat, n: nat, radix: Radix)
    ensures Value(Zeros(k) + Digits(n, radix), radix) == n
    decreases n, k
  {
    if n > 0 {
      var front, last := Zeros(k) + Digits(Over(n, radix), radix), DigitChar(Rest(n, radix));
      assert Zeros(k) + Digits(n, radix) == front + [last];
      ValueSnoc(front, last, radix);
      ValueOfDigits(k, Over(n, radix), radix);
      OverTimes(n, 0, radix);
    } else if k > 0 {
      assert Zeros(k) + "" == Zeros(k - 1) + "" + ['0'];
      ValueSnoc(Zeros(k - 1) + "", '0', radix);
      ValueOfDigits(k - 1, 0, radix);
    }
  }

  lemma DigitsSnoc(v: nat, c: char, radix: Radix)
    requires DigitValue(c) < radix && (v > 0 || c != '0')
    ensures Digits(Times(v, radix) + DigitValue(c), radix) == Digits(v, radix) + [c]
  {
    OverTimes(v, DigitValue(c), radix);
    assert DigitChar(DigitValue(c)) == c;
  }

  /** One digit more behind zeros and the digits of `v`. */
  lemma ZerosDigitsSnoc(k: nat, v: nat, c: char, radix: Radix) returns (l: nat)
    requires DigitValue(c) < radix
    ensures Zeros(k) + Digits(v, radix) + [c] == Zeros(l) + Digits(Times(v, radix) + DigitValue(c), radix)
  {
    if v == 0 && c == '0' {
      l := k + 1;
    } else {
      l := k;
      DigitsSnoc(v, c, radix);
    }
  }

  /** Every digit string is zeros followed by the digits of its value. */
  lemma {:induction false} DigitsOfValue(s: string, radix: Radix) returns (k: nat)
    requires AllDigits(s, radix)
    ensures s == Zeros(k) + Digits(Value(s, radix), radix)
  {
    if s == "" {
      return 0;
    }
    var front, last := s[..|s| - 1], s[|s| - 1];
    assert s == front + [last];
    k := DigitsOfValue(front, radix);
    k := ZerosDigitsSnoc(k, Value(front, radix), last, radix);
  }

  /** `t` is a literal for `n`: octal, hexadecimal or binary with its prefix and
      any number of extra zeros, or decimal (section 6.4.4.1 of ISO/IEC
      9899:2018, and binary). */
  ghost predicate IsLiteral(t: string, n: nat) {
    || (exists k: nat :: Prefixed(t, "0", k, n, 8))
    || (exists k: nat :: Prefixed(t, "0x", k, n, 16) && |t| > 2)
    || (exists k: nat :: Prefixed(t, "0b", k, n, 2) && |t| > 2)
    || (n > 0 && t == Digits(n, 10))
  }

  /** The prefix, `k` extra zeros, and the digits of `n`. */
  predicate Prefixed(t: string, prefix: string, k: nat, n: nat, radix: Radix) {
    t == prefix + (Zeros(k) + Digits(n, radix))
  }

  lemma PrefixedValue(t: string, prefix: string, k: nat, n: nat, radix: Radix)
    requires Prefixed(t, prefix, k, n, radix)
    ensures t[..|prefix|] == prefix && AllDigits(t[|prefix|..], radix) && Value(t[|prefix|..], radix) == n
  {
    DigitsAreDigits(n, radix);
    ValueOfDigits(k, n, radix);
    assert t[|prefix|..] == Zeros(k) + Digits(n, radix);
  }

  /** The zero in front of an octal literal does not change its value. */
  lemma OctalValue(t: string)
    requires OctalForm(t)
    ensures Value(t, 8) == Value(t[1..], 8)
  {
    var k := DigitsOfValue(t[1..], 8);
    var n := Value(t[1..], 8);
    assert Zeros(k + 1) == ['0'] + Zeros(k);
    assert t == [t[0]] + t[1..] && t == Zeros(k + 1) + Digits(n, 8);
    ValueOfDigits(k + 1, n, 8);
  }

  lemma OctalParses(t: string, k: nat, n: nat)
    requires Prefixed(t, "0", k, n, 8)
    ensures OctalForm(t) && Value(t, 8) == n
  {
    PrefixedValue(t, "0", k, n, 8);
    assert t[..1][0] == t[0];
    OctalValue(t);
  }

  lemma DigitsRoundTrip(n: nat, radix: Radix)
    ensures Value(Digits(n, radix), radix) == n
  {
    ValueOfDigits(0, n, radix);
    assert Zeros(0) + Digits(n, radix) == Digits(n, radix);
  }

  lemma DecimalFormOf(t: string)
    requires AllDigits(t, 10) && t != "" && t[0] != '0'
    ensures DecimalForm(t)
  {
    assert DigitValue(t[0]) < 10;
  }

  lemma LiteralParses(t: string, n: nat)
    requires IsLiteral(t, n)
    ensures OctalForm(t) || HexForm(t) || BinaryForm(t) || DecimalForm(t)
    ensures OctalForm(t) ==> Value(t, 8) == n
    ensures HexForm(t) ==> Value(t[2..], 16) == n
    ensures BinaryForm(t) ==> Value(t[2..], 2) == n
    ensures DecimalForm(t) ==> Value(t, 10) == n
  {
    FormsExclusive(t);
    if k: nat :| Prefixed(t, "0", k, n, 8) {
      OctalParses(t, k, n);
    } else if k: nat :| Prefixed(t, "0x", k, n, 16) && |t| > 2 {
      PrefixedValue(t, "0x", k, n, 16);
    } else if k: nat :| Prefixed(t, "0b", k, n, 2) && |t| > 2 {
      PrefixedValue(t, "0b", k, n, 2);
    } else {
      DigitsAreDigits(n, 10);
      DecimalFormOf(t);
      DigitsRoundTrip(n, 10);
    }
  }

  lemma PrefixedDigits(t: string, prefix: string, radix: Radix) returns (k: nat)
    requires |prefix| <= |t| && t[..|prefix|] == prefix && AllDigits(t[|prefix|..], radix)
    ensures Prefixed(t, prefix, k, Value(t[|prefix|..], radix), radix)
  {
    k := DigitsOfValue(t[|prefix|..], radix);
    assert t == t[..|prefix|] + t[|prefix|..];
  }

  lemma ParsedIsLiteral(t: string)
    ensures OctalForm(t) ==> IsLiteral(t, Value(t, 8))
    ensures HexForm(t) ==> IsLiteral(t, Value(t[2..], 16))
    ensures BinaryForm(t) ==> IsLiteral(t, Value(t[2..], 2))
    ensures DecimalForm(t) ==> IsLiteral(t, Value(t, 10))
  {
    if OctalForm(t) {
      OctalValue(t);
      assert t[..1] == "0";
      var k := PrefixedDigits(t, "0", 8);
    } else if HexForm(t) {
      var k := PrefixedDigits(t, "0x", 16);
    } else if BinaryForm(t) {
      var k := PrefixedDigits(t, "0b", 2);
    } else if DecimalForm(t) {
      DecimalHasNoZeros(t);
    }
    FormsExclusive(t);
  }

  lemma DecimalHasNoZeros(t: string)
    requires DecimalForm(t)
    ensures Value(t, 10) > 0 && t == Digits(Value(t, 10), 10)
  {
    var k := DigitsOfValue(t, 10);
    var zeros, digits := Zeros(k), Digits(Value(t, 10), 10);
    assert |zeros| == k && t[0] == (zeros + digits)[0];
    assert k == 0 && zeros + digits == digits;
  }

  lemma ParsedFormIff(s: string, n: nat)
    ensures ParseInteger(s) == Some(n) <==> IsLiteral(Trim(Lower(s)), n)
  {
    var t := Trim(Lower(s));
    FormsExclusive(t);
    ParsedIsLiteral(t);
    if IsLiteral(t, n) {
      LiteralParses(t, n);
    }
  }

  // ---------------------------------------------------------------------------
  // Round trip with white space and capitals.

  lemma {:induction false} TrimLeftPadding(before: string, t: string)
    requires forall i :: 0 <= i < |before| ==> IsSpace(before[i])
    requires t != "" && !IsSpace(t[0])
    ensures TrimLeft(before + t) == t
    decreases |before|
  {
    if before == "" {
      assert before + t == t;
    } else {
      assert (before + t)[1..] == before[1..] + t;
      TrimLeftPadding(before[1..], t);
    }
  }

  lemma {:induction false} TrimRightPadding(t: string, after: string)
    requires forall i :: 0 <= i < |after| ==> IsSpace(after[i])
    requires t != "" && !IsSpace(t[|t| - 1])
    ensures TrimRight(t + after) == t
    decreases |after|
  {
    if after == "" {
      assert t + after == t;
    } else {
      var n := |after| - 1;
      assert (t + after)[..|t + after| - 1] == t + after[..n] && (t + after)[|t + after| - 1] == after[n];
      TrimRightPadding(t, after[..n]);
    }
  }

  /** No white space at either end. */
  predicate Tight(t: string) {
    t != "" && !IsSpace(t[0]) && !IsSpace(t[|t| - 1])
  }

  lemma DigitIsNoSpace(c: char, radix: Radix)
    requires DigitValue(c) < radix
    ensures !IsSpace(c)
  {
  }

  lemma OctalIsTight(t: string)
    requires OctalForm(t)
    ensures Tight(t)
  {
    if |t| > 1 {
      assert t[1..][|t| - 2] == t[|t| - 1];
      DigitIsNoSpace(t[|t| - 1], 8);
    }
  }

  /** A prefix that begins with a zero, and digits. */
  lemma PrefixedIsTight(t: string, radix: Radix)
    requires |t| >= 3 && t[0] == '0' && AllDigits(t[2..], radix)
    ensures Tight(t)
  {
    assert t[2..][|t| - 3] == t[|t| - 1];
    DigitIsNoSpace(t[|t| - 1], radix);
  }

  lemma DecimalIsTight(t: string)
    requires DecimalForm(t)
    ensures Tight(t)
  {
    DigitIsNoSpace(t[0], 10);
    DigitIsNoSpace(t[|t| - 1], 10);
  }

  lemma LiteralIsTight(t: string, n: nat)
    requires IsLiteral(t, n)
    ensures Tight(t)
  {
    LiteralParses(t, n);
    if OctalForm(t) {
      OctalIsTight(t);
    } else if DecimalForm(t) {
      DecimalIsTight(t);
    } else {
      assert t[0] == t[..2][0];
      PrefixedIsTight(t, if HexForm(t) then 16 else 2);
    }
  }

  lemma WhiteIff(w: string)
    ensures White(w) <==> forall i :: 0 <= i < |w| ==> IsSpace(w[i])
  {
    forall i | 0 <= i < |w|
      ensures IsSpace(w[i]) <==> WhiteChar(w[i])
    {
    }
  }

  /** No capitals in a literal. */
  lemma LiteralIsLow(t: string, n: nat)
    requires IsLiteral(t, n)
    ensures Lower(t) == t
  {
    LiteralParses(t, n);
    assert HexForm(t) ==> t[0] == t[..2][0] && t[1] == t[..2][1] && "0x"[0] == '0' && "0x"[1] == 'x';
    assert BinaryForm(t) ==> t[0] == t[..2][0] && t[1] == t[..2][1] && "0b"[0] == '0' && "0b"[1] == 'b';
    forall i | 0 <= i < |t|
      ensures LowerChar(t[i]) == t[i]
    {
      assert i >= 1 && OctalForm(t) ==> DigitValue(t[1..][i - 1]) < 16;
      assert i >= 2 && (HexForm(t) || BinaryForm(t)) ==> DigitValue(t[2..][i - 2]) < 16;
    }
  }

  /** Lowering undoes the capitals. */
  lemma LowerOfCapitals(p: string, q: string)
    requires Lower(p) == p && SameButCase(p, q)
    ensures Lower(q) == p
  {
    forall i | 0 <= i < |p|
      ensures LowerChar(q[i]) == p[i]
    {
      CapitalIs(p[i], q[i]);
      assert LowerChar(p[i]) == Lower(p)[i];
    }
  }

  lemma LowerIsSameButCase(q: string)
    ensures SameButCase(Lower(q), q)
  {
    forall i | 0 <= i < |q|
      ensures q[i] == Lower(q)[i] || CapitalOf(Lower(q)[i], q[i])
    {
      CapitalIs(Lower(q)[i], q[i]);
    }
  }

  lemma LowerOfParts(before: string, printed: string, after: string)
    requires White(before) && White(after)
    ensures Lower(before + printed + after) == before + (Lower(printed) + after)
  {
    WhiteIff(before);
    WhiteIff(after);
    assert Lower(before) == before && Lower(after) == after;
    assert Lower(before + printed + after) == Lower(before) + Lower(printed) + Lower(after);
  }

  /** Round trip: a literal for `n`, with any of its letters as capitals and any
      white space around it, parses to `n`. */
  lemma PrintedLiteralParsesBack(before: string, literal: string, printed: string, after: string, n: nat)
    requires IsLiteral(literal, n) && SameButCase(literal, printed) && White(before) && White(after)
    ensures ParseInteger(before + printed + after) == Some(n)
  {
    LiteralIsLow(literal, n);
    LowerOfCapitals(literal, printed);
    WhiteIff(before);
    WhiteIff(after);
    LiteralIsTight(literal, n);
    LowerOfParts(before, printed, after);
    assert (literal + after)[0] == literal[0];
    TrimLeftPadding(before, literal + after);
    TrimRightPadding(literal, after);
    ParsedFormIff(before + printed + after, n);
  }

  lemma {:induction false} TrimLeftSplit(s: string) returns (k: nat)
    ensures k <= |s| && TrimLeft(s) == s[k..] && forall i :: 0 <= i < k ==> IsSpace(s[i])
  {
    k := 0;
    if s != "" && IsSpace(s[0]) {
      k := TrimLeftSplit(s[1..]);
      k := k + 1;
      assert s[1..][k - 1..] == s[k..];
      assert forall i :: 0 < i < k ==> s[i] == s[1..][i - 1];
    }
  }

  lemma {:induction false} TrimRightSplit(s: string) returns (k: nat)
    ensures k <= |s| && TrimRight(s) == s[..k] && forall i :: k <= i < |s| ==> IsSpace(s[i])
  {
    k := |s|;
    if s != "" && IsSpace(s[|s| - 1]) {
      k := TrimRightSplit(s[..|s| - 1]);
      assert s[..|s| - 1][..k] == s[..k];
      assert forall i :: k <= i < |s| - 1 ==> s[i] == s[..|s| - 1][i];
    }
  }

  ghost predicate Reads(s: string, n: nat, before: string, literal: string, printed: string, after: string) {
    && s == before + printed + after && White(before) && White(after)
    && SameButCase(literal, printed) && IsLiteral(literal, n)
  }

  lemma TrimSplit(s: string) returns (before: string, after: string)
    ensures s == before + Trim(s) + after
    ensures forall i :: 0 <= i < |before| ==> IsSpace(before[i])
    ensures forall i :: 0 <= i < |after| ==> IsSpace(after[i])
  {
    var k := TrimLeftSplit(s);
    var l := TrimRightSplit(s[k..]);
    before, after := s[..k], s[k..][l..];
  }

  /** Undoing `Lower` on a string in three parts. */
  lemma LowerSplit(s: string, a: string, b: string, c: string) returns (x: string, y: string, z: string)
    requires Lower(s) == a + b + c
    ensures s == x + y + z && Lower(x) == a && Lower(y) == b && Lower(z) == c
  {
    var k, l := |a|, |a| + |b|;
    x, y, z := s[..k], s[k..l], s[l..];
    assert Lower(s)[..k] == a && Lower(s)[k..l] == b && Lower(s)[l..] == c;
  }

  lemma LowSpaceIsWhite(w: string)
    requires forall i :: 0 <= i < |w| ==> IsSpace(Lower(w)[i])
    ensures White(w)
  {
    WhiteIff(w);
    assert forall i :: 0 <= i < |w| ==> Lower(w)[i] == LowerChar(w[i]);
  }

  lemma ParsedReads(s: string, n: nat)
    requires ParseInteger(s) == Some(n)
    ensures exists before, literal, printed, after :: Reads(s, n, before, literal, printed, after)
  {
    ParsedFormIff(s, n);
    var a, c := TrimSplit(Lower(s));
    var before, printed, after := LowerSplit(s, a, Trim(Lower(s)), c);
    LowSpaceIsWhite(before);
    LowSpaceIsWhite(after);
    LowerIsSameButCase(printed);
    assert Reads(s, n, before, Lower(printed), printed, after);
  }

  /** `parseInteger` yields `n` for exactly the strings that are a literal for
      `n`, some of its letters as capitals, between white space; it fails on all
      others. */
  lemma ParseIntegerIff(s: string, n: nat)
    ensures ParseInteger(s) == Some(n)
       <==> exists before, literal, printed, after :: Reads(s, n, before, literal, printed, after)
  {
    if ParseInteger(s) == Some(n) {
      ParsedReads(s, n);
    }
    if before, literal, printed, after :| Reads(s, n, before, literal, printed, after) {
      PrintedLiteralParsesBack(before, literal, printed, after, n);
    }
  }

  // ---------------------------------------------------------------------------
  // The database number in the path of a redis URI.

  predicate IsDigit(c: char) {
    '0' <= c <= '9'
  }

  lemma IsDigitIff(c: char)
    ensures IsDigit(c) <==> c in "0123456789"
  {
  }

  /** What a greedy `\d*` matches at the front. */
  function LeadingDigits(s: string): string {
    if s != "" && IsDigit(s[0]) then [s[0]] + LeadingDigits(s[1..]) else ""
  }

  function StripZeros(s: string): string {
    if s != "" && s[0] == '0' then StripZeros(s[1..]) else s
  }

  /** The group of the regular expression: a slash, as many zeros as leave at
      least one digit, and the digits. */
  function DbGroup(path: string): Option<string> {
    if path == "" || path[0] != '/' then None
    else
      var digits := LeadingDigits(path[1..]);
      if digits == "" then None
      else if StripZeros(digits) == "" then Some("0")
      else Some(StripZeros(digits))
  }

  function ParseDb(path: string): Option<nat> {
    match DbGroup(path)
    case None => None
    case Some(group) => ParseInteger(group)
  }

  lemma {:induction false} LeadingDigitsSplit(digits: string, rest: string)
    requires forall i :: 0 <= i < |digits| ==> IsDigit(digits[i])
    requires rest != "" ==> !IsDigit(rest[0])
    ensures LeadingDigits(digits + rest) == digits
    decreases |digits|
  {
    if digits == "" {
      assert digits + rest == rest;
    } else {
      assert (digits + rest)[1..] == digits[1..] + rest;
      LeadingDigitsSplit(digits[1..], rest);
    }
  }

  /** Stripping zeros from decimal digits leaves their value in decimal. */
  lemma {:induction false} StripZerosSpec(s: string)
    requires AllDigits(s, 10)
    ensures StripZeros(s) == Digits(Value(s, 10), 10)
    ensures StripZeros(s) == "" <==> Value(s, 10) == 0
  {
    var k := DigitsOfValue(s, 10);
    DigitsAreDigits(Value(s, 10), 10);
    StripZerosOf(k, Digits(Value(s, 10), 10));
  }

  lemma {:induction false} StripZerosOf(k: nat, t: string)
    requires t != "" ==> t[0] != '0'
    ensures StripZeros(Zeros(k) + t) == t
  {
    if k == 0 {
      assert Zeros(0) + t == t;
    } else {
      assert (Zeros(k) + t)[1..] == Zeros(k - 1) + t;
      StripZerosOf(k - 1, t);
    }
  }

  /** The group is the digits without leading zeros, or a single zero. */
  lemma GroupOfDigits(path: string, digits: string, rest: string)
    requires path != "" && path[0] == '/' && path[1..] == digits + rest
    requires forall i :: 0 <= i < |digits| ==> IsDigit(digits[i])
    requires rest != "" ==> !IsDigit(rest[0])
    ensures DbGroup(path)
         == if digits == "" then None
            else if StripZeros(digits) == "" then Some("0") else Some(StripZeros(digits))
  {
    LeadingDigitsSplit(digits, rest);
  }

  /** `parseDb` is the decimal value of the digits behind the slash, however many
      zeros they begin with, whatever follows them; without a digit there it
      fails. */
  lemma ParseDbIsDecimal(digits: string, rest: string)
    requires forall i :: 0 <= i < |digits| ==> digits[i] in "0123456789"
    requires rest != "" ==> rest[0] !in "0123456789"
    ensures ParseDb("/" + digits + rest) == if digits == "" then None else Some(Value(digits, 10))
  {
    forall c {
      IsDigitIff(c);
    }
    var path := "/" + digits + rest;
    assert path[1..] == digits + rest;
    GroupOfDigits(path, digits, rest);
    StripZerosSpec(digits);
    GroupParses(Value(digits, 10));
  }

  lemma GroupParses(n: nat)
    ensures ParseInteger(if n == 0 then "0" else Digits(n, 10)) == Some(n)
  {
    var group := if n == 0 then "0" else Digits(n, 10);
    DigitsAreDigits(n, 10);
    assert AllDigits(group, 10);
    assert n == 0 ==> Prefixed(group, "0", 0, 0, 8);
    assert "" + group + "" == group;
    PrintedLiteralParsesBack("", group, group, "", n);
  }

  /** `parseDb` fails exactly if the path does not begin with a slash and a
      digit. */
  lemma ParseDbFailsIff(path: string)
    ensures ParseDb(path) == None <==> !(|path| >= 2 && path[0] == '/' && path[1] in "0123456789")
  {
    forall c {
      IsDigitIff(c);
    }
    if path != "" && path[0] == '/' {
      var digits := LeadingDigits(path[1..]);
      var rest := LeadingDigitsRest(path[1..]);
      assert path == "/" + digits + rest;
      ParseDbIsDecimal(digits, rest);
    }
  }

  lemma {:induction false} LeadingDigitsRest(s: string) returns (rest: string)
    ensures s == LeadingDigits(s) + rest && (rest != "" ==> !IsDigit(rest[0]))
    ensures forall i :: 0 <= i < |LeadingDigits(s)| ==> IsDigit(LeadingDigits(s)[i])
  {
    if s != "" && IsDigit(s[0]) {
      rest := LeadingDigitsRest(s[1..]);
      assert s == [s[0]] + s[1..];
    } else {
      rest := s;
    }
  }
}
