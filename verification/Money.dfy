/** Milliunits as exact decimal text, and back. */
module Money {
  import opened Prelude

  const MIN_INT64: int := -0x8000_0000_0000_0000
  const MAX_INT64: int := 0x7FFF_FFFF_FFFF_FFFF
  const MAX_WHOLE: int := 1_000_000_000_000

  predicate IsInt64(m: int) { MIN_INT64 <= m <= MAX_INT64 }

  /** uint64(-m) for a negative m: the minimum negates to itself, and its conversion is its magnitude. */
  function Magnitude(m: int): (u: nat)
    requires IsInt64(m)
  {
    if m >= 0 then m
    else
      var neg := if m == MIN_INT64 then MIN_INT64 else -m;
      if neg < 0 then neg + 0x1_0000_0000_0000_0000 else neg
  }

  function DigitChar(d: nat): char
    requires d < 10
  {
    '0' + d as char
  }

  function Decimal(n: nat): string {
    if n < 10 then [DigitChar(n)] else Decimal(n / 10) + [DigitChar(n % 10)]
  }

  /** %03d */
  function Pad3(n: nat): string
    requires n < 1000
  {
    [DigitChar(n / 100), DigitChar(n / 10 % 10), DigitChar(n % 10)]
  }

  function TrimSuffix(s: string, c: char): string {
    if s != "" && s[|s| - 1] == c then s[..|s| - 1] else s
  }

  function FormatMoney(m: int): string
    requires IsInt64(m)
  {
    var u := Magnitude(m);
    TrimSuffix((if m < 0 then "-" else "") + (Decimal(u / 1000) + ("." + Pad3(u % 1000))), '0')
  }

  // ---- Parsing

  predicate IsDigit(c: char) { '0' <= c <= '9' }

  predicate AllDigits(s: string) { forall i | 0 <= i < |s| :: IsDigit(s[i]) }

  function NumberOf(s: string): nat
    requires AllDigits(s)
  {
    if s == "" then 0 else NumberOf(s[..|s| - 1]) * 10 + (s[|s| - 1] - '0') as nat
  }

  /** strconv.ParseInt in base 10, which takes a sign. */
  function ParseInt(s: string): Option<int> {
    var signed := s != "" && (s[0] == '+' || s[0] == '-');
    var digits := if signed then s[1..] else s;
    if digits == "" || !AllDigits(digits) then None
    else
      var u: int := NumberOf(digits);
      var n := if signed && s[0] == '-' then -u else u;
      if IsInt64(n) then Some(n) else None
  }

  /** The index of the first '.', or the length. */
  function DotAt(s: string): (i: nat)
    ensures i <= |s|
  {
    if s == "" || s[0] == '.' then 0 else 1 + DotAt(s[1..])
  }

  predicate HasSign(s: string) { exists i | 0 <= i < |s| :: s[i] == '+' || s[i] == '-' }

  /** strings.Cut at the first dot. */
  function Cut(s: string): (string, string) {
    var dot := DotAt(s);
    (s[..dot], if dot < |s| then s[dot + 1..] else "")
  }

  function ParseFraction(frac: string): Option<int> {
    if frac == "" then Some(0) else if |frac| > 3 then None else ParseInt((frac + "00")[..3])
  }

  function ParseParts(neg: bool, whole: string, frac: string): Option<int> {
    if whole == "" || |frac| > 3 || HasSign(whole) || HasSign(frac) then None
    else
      match ParseInt(whole)
      case None => None
      case Some(w) =>
        if w > MAX_WHOLE then None
        else
          match ParseFraction(frac)
          case None => None
          case Some(f) => Some(if neg then -(w * 1000 + f) else w * 1000 + f)
  }

  function ParseMoney(text: string): Option<int> {
    var neg := text != "" && text[0] == '-';
    var parts := Cut(if neg then text[1..] else text);
    ParseParts(neg, parts.0, parts.1)
  }

  // ---- What the text means

  /** whole.frac, or whole alone, with an optional minus sign. */
  datatype Amount = Amount(neg: bool, whole: string, dot: bool, frac: string)

  predicate WellFormed(a: Amount) {
    && a.whole != "" && AllDigits(a.whole)
    && AllDigits(a.frac) && |a.frac| <= 3 && (a.frac != "" ==> a.dot)
  }

  function Body(a: Amount): string {
    a.whole + if a.dot then "." + a.frac else ""
  }

  function Text(a: Amount): string {
    if a.neg then "-" + Body(a) else Body(a)
  }

  /** Thousandths: the fraction is worth frac times a power of ten. */
  function Milliunits(a: Amount): int
    requires WellFormed(a)
  {
    var scale := if |a.frac| == 3 then 1 else if |a.frac| == 2 then 10 else if |a.frac| == 1 then 100 else 1000;
    var m := NumberOf(a.whole) * 1000 + NumberOf(a.frac) * scale;
    if a.neg then -m else m
  }

  lemma {:induction false} DotAfterDigits(w: string, rest: string)
    requires AllDigits(w)
    ensures DotAt(w + rest) == |w| + DotAt(rest)
  {
    if w == "" {
      assert w + rest == rest;
    } else {
      DotAfterDigits(w[1..], rest);
      assert (w + rest)[1..] == w[1..] + rest;
      assert (w + rest)[0] == w[0];
    }
  }

  lemma {:induction false} NumberOfZeros(s: string)
    requires AllDigits(s)
    ensures AllDigits(s + "0") && NumberOf(s + "0") == NumberOf(s) * 10
  {
    assert (s + "0")[..|s|] == s;
    assert (s + "0")[|s|] == '0';
  }

  lemma {:induction false} NumberBelowThousand(s: string)
    requires AllDigits(s) && |s| == 3
    ensures NumberOf(s) < 1000
  {
    assert s[..1][..0] == "" && s[..2][..1] == s[..1];
    assert NumberOf("") == 0;
    assert NumberOf(s[..1]) < 10;
    assert NumberOf(s[..2]) < 100;
  }

  lemma {:induction false} PaddedFraction(frac: string)
    requires AllDigits(frac) && 1 <= |frac| <= 3
    ensures AllDigits((frac + "00")[..3]) && NumberOf((frac + "00")[..3]) < 1000
    ensures NumberOf((frac + "00")[..3]) == NumberOf(frac) * if |frac| == 3 then 1 else if |frac| == 2 then 10 else 100
  {
    var p := (frac + "00")[..3];
    NumberOfZeros(frac);
    NumberOfZeros(frac + "0");
    if |frac| == 1 {
      assert p == frac + "0" + "0";
    } else if |frac| == 2 {
      assert p == frac + "0";
    } else {
      assert p == frac;
    }
    NumberBelowThousand(p);
  }

  lemma {:induction false} CutBody(a: Amount)
    requires WellFormed(a)
    ensures Cut(Body(a)) == (a.whole, a.frac)
  {
    var rest := if a.dot then "." + a.frac else "";
    DotAfterDigits(a.whole, rest);
    assert Body(a)[..|a.whole|] == a.whole;
    assert a.dot ==> Body(a)[|a.whole| + 1..] == a.frac;
  }

  lemma {:induction false} SignOfText(a: Amount)
    requires WellFormed(a)
    ensures Text(a) != "" && (Text(a)[0] == '-' <==> a.neg)
    ensures (if a.neg then Text(a)[1..] else Text(a)) == Body(a)
  {
    assert Body(a)[0] == a.whole[0];
  }

  lemma {:induction false} UnsignedNumber(s: string)
    requires !HasSign(s)
    ensures ParseInt(s) == if s != "" && AllDigits(s) && NumberOf(s) <= MAX_INT64 then Some(NumberOf(s)) else None
  {
  }

  lemma {:induction false} DigitsAreUnsigned(s: string)
    requires AllDigits(s)
    ensures !HasSign(s)
  {
  }

  lemma {:induction false} ParsesParts(a: Amount)
    requires WellFormed(a)
    ensures ParseParts(a.neg, a.whole, a.frac) == if NumberOf(a.whole) <= MAX_WHOLE then Some(Milliunits(a)) else None
  {
    DigitsAreUnsigned(a.whole);
    DigitsAreUnsigned(a.frac);
    if a.frac != "" {
      PaddedFraction(a.frac);
      DigitsAreUnsigned((a.frac + "00")[..3]);
    }
  }

  /** Every well-formed amount is read as exactly what it says, unless its whole part is too large. */
  lemma {:induction false} ParsesAmount(a: Amount)
    requires WellFormed(a)
    ensures ParseMoney(Text(a)) == if NumberOf(a.whole) <= 1_000_000_000_000 then Some(Milliunits(a)) else None
  {
    SignOfText(a);
    CutBody(a);
    ParsesParts(a);
  }

  lemma {:induction false} DotSplits(s: string)
    ensures DotAt(s) < |s| ==> s[DotAt(s)] == '.'
  {
    if s != "" && s[0] != '.' { DotSplits(s[1..]); }
  }

  lemma {:induction false} PartsWellFormed(neg: bool, whole: string, dot: bool, frac: string)
    requires ParseParts(neg, whole, frac).Some? && (frac != "" ==> dot)
    ensures WellFormed(Amount(neg, whole, dot, frac))
  {
    UnsignedNumber(whole);
    if frac != "" {
      var padded := (frac + "00")[..3];
      assert forall i :: 0 <= i < 3 ==> padded[i] == if i < |frac| then frac[i] else '0';
      UnsignedNumber(padded);
    }
    forall i | 0 <= i < |frac| ensures IsDigit(frac[i]) {
      assert (frac + "00")[..3][i] == frac[i];
    }
  }

  lemma {:induction false} JoinAt(s: string, i: nat)
    requires i < |s| && s[i] == '.'
    ensures s == s[..i] + ("." + s[i + 1..])
  {
  }

  lemma {:induction false} CutJoins(s: string)
    ensures DotAt(s) < |s| ==> s == Cut(s).0 + ("." + Cut(s).1)
    ensures DotAt(s) == |s| ==> s == Cut(s).0 && Cut(s).1 == ""
  {
    DotSplits(s);
    if DotAt(s) < |s| { JoinAt(s, DotAt(s)); }
  }

  /** Nothing else is read. */
  lemma {:induction false} ParsesOnlyAmounts(text: string)
    requires ParseMoney(text).Some?
    ensures exists a: Amount :: WellFormed(a) && Text(a) == text
  {
    var neg := text != "" && text[0] == '-';
    var s := if neg then text[1..] else text;
    var a := Amount(neg, Cut(s).0, DotAt(s) < |s|, Cut(s).1);
    PartsWellFormed(neg, a.whole, a.dot, a.frac);
    CutJoins(s);
    assert Body(a) == s;
    assert neg ==> text == "-" + s;
    assert Text(a) == text;
  }

  // ---- The round trip

  lemma {:induction false} DecimalReads(n: nat)
    ensures AllDigits(Decimal(n)) && Decimal(n) != "" && NumberOf(Decimal(n)) == n
  {
    var d := Decimal(n);
    if n < 10 {
      assert d[..0] == "";
    } else {
      DecimalReads(n / 10);
      assert d[..|d| - 1] == Decimal(n / 10);
    }
  }

  lemma {:induction false} ThreeDigits(x: nat, y: nat, z: nat)
    requires x < 10 && y < 10 && z < 10
    ensures var p := [DigitChar(x), DigitChar(y), DigitChar(z)];
            AllDigits(p) && NumberOf(p) == x * 100 + y * 10 + z && NumberOf(p[..2]) == x * 10 + y
  {
    var p := [DigitChar(x), DigitChar(y), DigitChar(z)];
    assert p[..2] == [DigitChar(x), DigitChar(y)] && p[..2][..1] == [DigitChar(x)] && [DigitChar(x)][..0] == "";
    assert NumberOf([DigitChar(x)]) == x;
    assert NumberOf(p[..2]) == x * 10 + y;
  }

  lemma {:induction false} Pad3Reads(n: nat)
    requires n < 1000
    ensures AllDigits(Pad3(n)) && NumberOf(Pad3(n)) == n
    ensures n % 10 == 0 ==> NumberOf(Pad3(n)[..2]) * 10 == n
  {
    assert n == n / 100 * 100 + n / 10 % 10 * 10 + n % 10;
    ThreeDigits(n / 100, n / 10 % 10, n % 10);
  }

  /** What FormatMoney writes: the sign, the whole part, and two or three decimals. */
  function Written(m: int): Amount
    requires IsInt64(m)
  {
    var u := Magnitude(m);
    var f := Pad3(u % 1000);
    Amount(m < 0, Decimal(u / 1000), true, if u % 10 == 0 then f[..2] else f)
  }

  /** The decimals that are written: two if the third is zero. */
  function Decimals(r: nat): string
    requires r < 1000
  {
    if r % 10 == 0 then Pad3(r)[..2] else Pad3(r)
  }

  lemma {:induction false} DecimalsTrim(r: nat)
    requires r < 1000
    ensures TrimSuffix(Pad3(r), '0') == Decimals(r)
  {
    assert Pad3(r)[2] == '0' <==> r % 10 == 0;
  }

  lemma {:induction false} DecimalsRead(r: nat)
    requires r < 1000
    ensures AllDigits(Decimals(r)) && 2 <= |Decimals(r)| <= 3
    ensures NumberOf(Decimals(r)) * (if |Decimals(r)| == 3 then 1 else 10) == r
  {
    Pad3Reads(r);
  }

  lemma {:induction false} TrimAmount(sign: string, whole: string, f: string)
    requires f != ""
    ensures TrimSuffix(sign + (whole + ("." + f)), '0') == sign + (whole + ("." + TrimSuffix(f, '0')))
  {
    TrimLast(".", f, '0');
    TrimLast(whole, "." + f, '0');
    TrimLast(sign, whole + ("." + f), '0');
  }

  lemma {:induction false} ThousandSplits(u: nat)
    ensures u == u / 1000 * 1000 + u % 1000 && u % 1000 % 10 == u % 10
  {
  }

  lemma {:induction false} SignedText(neg: bool, whole: string, frac: string)
    ensures Text(Amount(neg, whole, true, frac)) == (if neg then "-" else "") + (whole + ("." + frac))
  {
    var body := whole + ("." + frac);
    assert "" + body == body;
  }

  lemma {:induction false} WrittenIs(m: int, u: nat)
    requires IsInt64(m) && u == Magnitude(m)
    ensures Written(m) == Amount(m < 0, Decimal(u / 1000), true, Decimals(u % 1000))
  {
    ThousandSplits(u);
  }

  lemma {:induction false} FormatIsText(m: int)
    requires IsInt64(m)
    ensures WellFormed(Written(m)) && Text(Written(m)) == FormatMoney(m) && Milliunits(Written(m)) == m
    ensures NumberOf(Written(m).whole) == Magnitude(m) / 1000
  {
    var u := Magnitude(m);
    WrittenIs(m, u);
    FormatParts(m < 0, u / 1000, u % 1000, Decimal(u / 1000), Decimals(u % 1000));
    ThousandSplits(u);
  }

  /** The text and value of an amount from its sign, whole part and thousandths. */
  lemma {:induction false} FormatParts(neg: bool, w: nat, r: nat, whole: string, frac: string)
    requires r < 1000 && whole == Decimal(w) && frac == Decimals(r)
    ensures var a := Amount(neg, whole, true, frac);
            && WellFormed(a) && NumberOf(whole) == w
            && Text(a) == TrimSuffix((if neg then "-" else "") + (whole + ("." + Pad3(r))), '0')
            && Milliunits(a) == if neg then -(w * 1000 + r) else w * 1000 + r
  {
    DecimalReads(w);
    DecimalsRead(r);
    DecimalsTrim(r);
    TrimAmount(if neg then "-" else "", whole, Pad3(r));
    SignedText(neg, whole, frac);
  }

  lemma {:induction false} TrimLast(head: string, s: string, c: char)
    requires s != ""
    ensures TrimSuffix(head + s, c) == head + TrimSuffix(s, c)
  {
  }

  /** parseMoney undoes formatMoney as long as the whole part is at most 10^12, and refuses the rest. */
  lemma {:induction false} MoneyRoundTrip(m: int)
    requires IsInt64(m)
    ensures ParseMoney(FormatMoney(m)) == if Magnitude(m) / 1000 <= 1_000_000_000_000 then Some(m) else None
  {
    FormatIsText(m);
    ParsesAmount(Written(m));
  }

  lemma {:induction false} SameText(a: Amount, b: Amount)
    requires WellFormed(a) && WellFormed(b) && a.dot && b.dot && Text(a) == Text(b)
    ensures a == b
  {
    SignOfText(a);
    SignOfText(b);
    CutBody(a);
    CutBody(b);
  }

  /** Different amounts never look alike, over all of int64. */
  lemma {:induction false} FormatInjective(m: int, n: int)
    requires IsInt64(m) && IsInt64(n) && FormatMoney(m) == FormatMoney(n)
    ensures m == n
  {
    FormatIsText(m);
    FormatIsText(n);
    SameText(Written(m), Written(n));
  }
}
