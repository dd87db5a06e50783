/** The lexical scan that appends Z to zone-less timestamps, against a tokenizer of JSON strings. */
module Timestamps {
  import opened Prelude

  type Bytes = seq<Byte>

  const QUOTE: Byte := 34
  const BACKSLASH: Byte := 92
  const COLON: Byte := 58
  const ZULU: Byte := 90

  predicate IsDigit(b: Byte) { 48 <= b <= 57 }
  predicate IsSpace(b: Byte) { b == 32 || b == 9 || b == 10 || b == 13 }

  predicate Digits(c: Bytes, lo: nat, hi: nat)
    requires hi <= |c|
  {
    forall i | lo <= i < hi :: IsDigit(c[i])
  }

  /** Digits and punctuation of YYYY-MM-DDThh:mm:ss at the start of a string. */
  predicate DateTimePrefix(c: Bytes)
    requires |c| >= 19
  {
    && Digits(c, 0, 4) && Digits(c, 5, 7) && Digits(c, 8, 10)
    && Digits(c, 11, 13) && Digits(c, 14, 16) && Digits(c, 17, 19)
    && c[4] == 45 && c[7] == 45 && c[10] == 84 && c[13] == COLON && c[16] == COLON
  }

  /** A whole string that is a date-time without a zone, with an optional fraction. */
  predicate IsNaive(c: Bytes) {
    && |c| >= 19 && DateTimePrefix(c)
    && (|c| == 19 || (|c| >= 21 && c[19] == 46 && Digits(c, 20, |c|)))
  }

  // ---- What a naive timestamp is

  /** A date-time without a zone; the scanner takes any digits for its fields. */
  datatype DateTime = DateTime(year: nat, month: nat, day: nat, hour: nat, minute: nat, second: nat,
                               fraction: Option<seq<nat>>)
  {
    predicate Valid() {
      && year < 10000 && month < 100 && day < 100 && hour < 100 && minute < 100 && second < 100
      && (fraction.Some? ==> fraction.value != [] && OneDigitEach(fraction.value))
    }
  }

  predicate OneDigitEach(ds: seq<nat>) { forall i :: 0 <= i < |ds| ==> ds[i] < 10 }

  function Code(c: char): Byte
    requires c < 128 as char
  {
    c as int as Byte
  }

  function DigitOf(d: nat): Byte
    requires d < 10
  {
    Code('0') + d as Byte
  }

  /** The last width decimal digits of n. */
  function Decimal(n: nat, width: nat): Bytes {
    if width == 0 then [] else Decimal(n / 10, width - 1) + [DigitOf(n % 10)]
  }

  function Fraction(ds: seq<nat>): Bytes
    requires OneDigitEach(ds)
  {
    seq(|ds|, i requires 0 <= i < |ds| => DigitOf(ds[i]))
  }

  /** YYYY-MM-DDThh:mm:ss, and the fraction after a point if there is one. */
  function Shown(t: DateTime): Bytes
    requires t.Valid()
  {
    Decimal(t.year, 4) + [Code('-')] + Decimal(t.month, 2) + [Code('-')] + Decimal(t.day, 2) + [Code('T')]
    + Decimal(t.hour, 2) + [Code(':')] + Decimal(t.minute, 2) + [Code(':')] + Decimal(t.second, 2)
    + if t.fraction.Some? then [Code('.')] + Fraction(t.fraction.value) else []
  }

  ghost predicate IsShown(c: Bytes) { exists t: DateTime :: t.Valid() && Shown(t) == c }

  function Value(s: Bytes): nat
    requires Digits(s, 0, |s|)
  {
    if s == [] then 0 else Value(s[..|s| - 1]) * 10 + (s[|s| - 1] - 48) as nat
  }

  lemma {:induction false} DecimalDigits(n: nat, width: nat)
    ensures |Decimal(n, width)| == width && Digits(Decimal(n, width), 0, width)
  {
    if width > 0 { DecimalDigits(n / 10, width - 1); }
  }

  /** Digits are the decimal of their value. */
  lemma {:induction false} DecimalOfValue(s: Bytes)
    requires Digits(s, 0, |s|)
    ensures Decimal(Value(s), |s|) == s
  {
    if s != [] {
      var init, d := s[..|s| - 1], (s[|s| - 1] - 48) as nat;
      DecimalOfValue(init);
      assert (Value(init) * 10 + d) / 10 == Value(init) && (Value(init) * 10 + d) % 10 == d;
      assert s == init + [s[|s| - 1]];
    }
  }

  lemma {:induction false} SmallValues(s: Bytes)
    requires Digits(s, 0, |s|)
    ensures |s| == 2 ==> Value(s) < 100
    ensures |s| == 4 ==> Value(s) < 10000
  {
    if |s| >= 2 {
      assert Value(s) == Value(s[..|s| - 1]) * 10 + (s[|s| - 1] - 48) as nat;
      assert s[..|s| - 1][..|s| - 2] == s[..|s| - 2];
      assert Value(s[..|s| - 1]) == Value(s[..|s| - 2]) * 10 + (s[|s| - 2] - 48) as nat;
      if |s| == 4 {
        SmallValues(s[..2]);
      }
    }
  }

  lemma {:induction false} ShownIsNaive(t: DateTime)
    requires t.Valid()
    ensures IsNaive(Shown(t))
  {
    DecimalDigits(t.year, 4);
    DecimalDigits(t.month, 2);
    DecimalDigits(t.day, 2);
    DecimalDigits(t.hour, 2);
    DecimalDigits(t.minute, 2);
    DecimalDigits(t.second, 2);
    var tail := if t.fraction.Some? then [Code('.')] + Fraction(t.fraction.value) else [];
    Assembled(Decimal(t.year, 4), Decimal(t.month, 2), Decimal(t.day, 2), Decimal(t.hour, 2), Decimal(t.minute, 2),
              Decimal(t.second, 2), tail);
  }

  lemma {:induction false} Assembled(y: Bytes, mo: Bytes, d: Bytes, h: Bytes, mi: Bytes, s: Bytes, tail: Bytes)
    requires |y| == 4 && Digits(y, 0, 4) && |mo| == 2 && Digits(mo, 0, 2) && |d| == 2 && Digits(d, 0, 2)
    requires |h| == 2 && Digits(h, 0, 2) && |mi| == 2 && Digits(mi, 0, 2) && |s| == 2 && Digits(s, 0, 2)
    requires tail == [] || (|tail| >= 2 && tail[0] == 46 && Digits(tail, 1, |tail|))
    ensures IsNaive(y + [45] + mo + [45] + d + [84] + h + [COLON] + mi + [COLON] + s + tail)
  {
    var c := y + [45] + mo + [45] + d + [84] + h + [COLON] + mi + [COLON] + s + tail;
    assert |c| == 19 + |tail|;
    assert c[0..4] == y && c[5..7] == mo && c[8..10] == d && c[11..13] == h && c[14..16] == mi && c[17..19] == s;
    SliceDigits(c, 0, 4);
    SliceDigits(c, 5, 7);
    SliceDigits(c, 8, 10);
    SliceDigits(c, 11, 13);
    SliceDigits(c, 14, 16);
    SliceDigits(c, 17, 19);
    if tail != [] { assert forall i :: 20 <= i < |c| ==> c[i] == tail[i - 19]; }
  }

  lemma {:induction false} SliceDigits(c: Bytes, lo: nat, hi: nat)
    requires lo <= hi <= |c| && Digits(c[lo..hi], 0, hi - lo)
    ensures Digits(c, lo, hi)
  {
    forall i | lo <= i < hi ensures IsDigit(c[i]) { assert c[i] == c[lo..hi][i - lo]; }
  }

  /** A prefix grows by the next slice. */
  lemma {:induction false} Next(c: Bytes, lo: nat, hi: nat)
    requires lo <= hi <= |c|
    ensures c[..hi] == c[..lo] + c[lo..hi]
  {
  }

  lemma {:induction false} NextByte(c: Bytes, lo: nat)
    requires lo < |c|
    ensures c[..lo + 1] == c[..lo] + [c[lo]]
  {
  }

  lemma {:induction false} Split(c: Bytes)
    requires |c| >= 19
    ensures c == c[..4] + [c[4]] + c[5..7] + [c[7]] + c[8..10] + [c[10]] + c[11..13] + [c[13]] + c[14..16] + [c[16]]
                 + c[17..19] + c[19..]
  {
    NextByte(c, 4);
    Next(c, 5, 7);
    NextByte(c, 7);
    Next(c, 8, 10);
    NextByte(c, 10);
    Next(c, 11, 13);
    NextByte(c, 13);
    Next(c, 14, 16);
    NextByte(c, 16);
    Next(c, 17, 19);
    assert c == c[..19] + c[19..];
  }

  /** The digits after the point. */
  function FractionOf(c: Bytes): (f: Option<seq<nat>>)
    requires IsNaive(c)
    ensures f.Some? ==> f.value != [] && OneDigitEach(f.value)
    ensures c[19..] == if f.Some? then [Code('.')] + Fraction(f.value) else []
  {
    if |c| == 19 then None
    else
      var ds := seq(|c| - 20, i requires 0 <= i < |c| - 20 => (c[20 + i] - 48) as nat);
      assert c[19..] == [c[19]] + c[20..] && c[20..] == Fraction(ds);
      Some(ds)
  }

  lemma {:induction false} NaiveIsShown(c: Bytes)
    requires IsNaive(c)
    ensures IsShown(c)
  {
    var t := DateTime(Field(c, 0, 4), Field(c, 5, 7), Field(c, 8, 10), Field(c, 11, 13), Field(c, 14, 16),
                      Field(c, 17, 19), FractionOf(c));
    Split(c);
    assert c[..4] == c[0..4];
    assert Shown(t) == c;
  }

  function Field(c: Bytes, lo: nat, hi: nat): (n: nat)
    requires lo <= hi <= |c| && Digits(c, lo, hi)
    ensures Decimal(n, hi - lo) == c[lo..hi]
    ensures hi - lo == 2 ==> n < 100
    ensures hi - lo == 4 ==> n < 10000
  {
    DecimalOfValue(c[lo..hi]);
    SmallValues(c[lo..hi]);
    Value(c[lo..hi])
  }

  /** A string is naive exactly if it is the print of a date-time without a zone. */
  lemma {:induction false} NaiveIffShown(c: Bytes)
    ensures IsNaive(c) <==> IsShown(c)
  {
    if IsNaive(c) { NaiveIsShown(c); }
    if IsShown(c) {
      var t: DateTime :| t.Valid() && Shown(t) == c;
      ShownIsNaive(t);
    }
  }

  // ---- Tokens

  /** A byte outside strings, the contents of a terminated string, or an unterminated string with its quote. */
  datatype Piece = Plain(b: Byte) | Str(content: Bytes) | Tail(rest: Bytes)

  /** The index of the first unescaped quote. */
  function Close(s: Bytes): Option<nat> {
    if s == [] then None
    else if s[0] == QUOTE then Some(0)
    else
      var skip := if s[0] == BACKSLASH then 2 else 1;
      if skip > |s| then None
      else
        match Close(s[skip..])
        case None => None
        case Some(n) => Some(n + skip)
  }

  lemma {:induction false} CloseAt(s: Bytes)
    ensures Close(s).Some? ==> Close(s).value < |s| && s[Close(s).value] == QUOTE
  {
    if s != [] && s[0] != QUOTE {
      var skip := if s[0] == BACKSLASH then 2 else 1;
      if skip <= |s| { CloseAt(s[skip..]); }
    }
  }

  function Tokens(s: Bytes): seq<Piece> {
    if s == [] then []
    else if s[0] != QUOTE then [Plain(s[0])] + Tokens(s[1..])
    else
      CloseAt(s[1..]);
      match Close(s[1..])
      case None => [Tail(s)]
      case Some(n) => [Str(s[1..n + 1])] + Tokens(s[n + 2..])
  }

  function PrintPiece(p: Piece): Bytes {
    match p
    case Plain(b) => [b]
    case Str(c) => [QUOTE] + c + [QUOTE]
    case Tail(rest) => rest
  }

  function Print(ps: seq<Piece>): Bytes {
    if ps == [] then [] else PrintPiece(ps[0]) + Print(ps[1..])
  }

  /** A string is a key when the next token that is not white space is a colon. */
  predicate BeforeColon(ps: seq<Piece>) {
    ps != [] && ps[0].Plain? && (ps[0].b == COLON || (IsSpace(ps[0].b) && BeforeColon(ps[1..])))
  }

  /** The piece at k is a colon, and all before it are space, tab, line feed or carriage return. */
  ghost predicate ColonAt(ps: seq<Piece>, k: nat) {
    && k < |ps| && ps[k] == Plain(Code(':'))
    && forall i :: 0 <= i < k ==> ps[i].Plain? && ps[i].b in {32, 9, 10, 13}
  }

  lemma {:induction false} BeforeColonIff(ps: seq<Piece>)
    ensures BeforeColon(ps) <==> exists k: nat :: ColonAt(ps, k)
  {
    if ps != [] {
      BeforeColonIff(ps[1..]);
      forall k: nat | k > 0 ensures ColonAt(ps, k) <==> ps[0].Plain? && IsSpace(ps[0].b) && ColonAt(ps[1..], k - 1) {
        assert forall i :: 1 <= i < |ps| ==> ps[i] == ps[1..][i - 1];
      }
      assert ColonAt(ps, 0) <==> ps[0] == Plain(COLON);
      if k: nat :| ColonAt(ps, k) {
        if k > 0 { assert ColonAt(ps[1..], k - 1); }
      }
      if k: nat :| ColonAt(ps[1..], k) {
        assert ColonAt(ps[1..], (k + 1) - 1);
        assert ps[0].Plain? && IsSpace(ps[0].b) ==> ColonAt(ps, k + 1);
      }
    } else {
      assert forall k: nat :: !ColonAt(ps, k);
    }
  }

  predicate NeedsZone(p: Piece, after: seq<Piece>) {
    p.Str? && IsNaive(p.content) && !BeforeColon(after)
  }

  /** Z appended to exactly the naive timestamps that are values. */
  function ZonedPiece(p: Piece, after: seq<Piece>): Piece {
    if NeedsZone(p, after) then Str(p.content + [ZULU]) else p
  }

  function Zoned(ps: seq<Piece>): (r: seq<Piece>)
    ensures |r| == |ps|
  {
    if ps == [] then [] else [ZonedPiece(ps[0], ps[1..])] + Zoned(ps[1..])
  }

  lemma {:induction false} ZonedAt(ps: seq<Piece>, k: nat)
    requires k < |ps|
    ensures Zoned(ps)[k] == ZonedPiece(ps[k], ps[k + 1..])
  {
    if k > 0 {
      ZonedAt(ps[1..], k - 1);
      assert ps[1..][k..] == ps[k + 1..];
    }
  }

  function Normalized(s: Bytes): Bytes { Print(Zoned(Tokens(s))) }

  // ---- The tokenizer loses nothing

  lemma {:induction false} Assoc<T>(a: seq<T>, b: seq<T>, c: seq<T>)
    ensures (a + b) + c == a + (b + c)
  {
  }

  /** A terminated string at the head of s. */
  lemma {:induction false} SplitString(s: Bytes, n: nat)
    requires s != [] && s[0] == QUOTE && Close(s[1..]) == Some(n)
    ensures n + 2 <= |s| && s[n + 1] == QUOTE
    ensures s == PrintPiece(Str(s[1..n + 1])) + s[n + 2..]
    ensures s[1..] == s[1..n + 1] + [QUOTE] + s[n + 2..]
  {
    CloseAt(s[1..]);
    var c, rest := s[1..n + 1], s[n + 2..];
    assert s[1..] == c + [QUOTE] + rest;
    assert s == [QUOTE] + s[1..];
    Assoc([QUOTE], c + [QUOTE], rest);
    Assoc([QUOTE], c, [QUOTE]);
  }

  lemma {:induction false} JoinString(c: Bytes, rest: Bytes)
    requires Close(c + [QUOTE] + rest) == Some(|c|)
    ensures Tokens(PrintPiece(Str(c)) + rest) == [Str(c)] + Tokens(rest)
  {
    var s := PrintPiece(Str(c)) + rest;
    Assoc([QUOTE], c, [QUOTE]);
    Assoc([QUOTE], c + [QUOTE], rest);
    assert s[1..] == c + [QUOTE] + rest;
    assert s[1..|c| + 1] == c && s[|c| + 2..] == rest;
  }

  lemma {:induction false} PrintTokens(s: Bytes)
    ensures Print(Tokens(s)) == s
  {
    if s == [] {
    } else if s[0] != QUOTE {
      PrintTokens(s[1..]);
      PrintCons(Plain(s[0]), Tokens(s[1..]));
    } else if Close(s[1..]).None? {
      PrintCons(Tail(s), []);
    } else {
      var n := Close(s[1..]).value;
      SplitString(s, n);
      PrintTokens(s[n + 2..]);
      PrintCons(Str(s[1..n + 1]), Tokens(s[n + 2..]));
    }
  }

  lemma {:induction false} PrintCons(p: Piece, ps: seq<Piece>)
    ensures Print([p] + ps) == PrintPiece(p) + Print(ps)
  {
    assert ([p] + ps)[1..] == ps;
  }

  /** A string's content: whatever follows it, its closing quote is the first unescaped one. */
  ghost predicate Closed(c: Bytes) {
    forall t: Bytes :: Close(c + [QUOTE] + t) == Some(|c|)
  }

  /** What Tokens produces: no stray quotes, closed strings, and an unterminated string only at the end. */
  ghost predicate WellFormed(ps: seq<Piece>) {
    ps == [] || (WellFormed(ps[1..]) &&
      match ps[0]
      case Plain(b) => b != QUOTE
      case Str(c) => Closed(c)
      case Tail(rest) => |ps| == 1 && rest != [] && rest[0] == QUOTE && Close(rest[1..]) == None)
  }

  lemma {:induction false} CloseIsLocal(s: Bytes, t: Bytes)
    requires Close(s).Some?
    ensures Close(s).value < |s|
    ensures Close(s[..Close(s).value] + [QUOTE] + t) == Close(s)
  {
    CloseAt(s);
    var n := Close(s).value;
    var u := s[..n] + [QUOTE] + t;
    if s[0] != QUOTE {
      var skip := if s[0] == BACKSLASH then 2 else 1;
      CloseIsLocal(s[skip..], t);
      assert u[skip..] == s[skip..][..n - skip] + [QUOTE] + t;
    }
  }

  lemma {:induction false} TokensWellFormed(s: Bytes)
    ensures WellFormed(Tokens(s))
  {
    if s == [] {
    } else if s[0] != QUOTE {
      TokensWellFormed(s[1..]);
      assert Tokens(s)[1..] == Tokens(s[1..]);
    } else if Close(s[1..]).Some? {
      var n := Close(s[1..]).value;
      SplitString(s, n);
      TokensWellFormed(s[n + 2..]);
      assert Tokens(s)[1..] == Tokens(s[n + 2..]);
      var c := s[1..n + 1];
      assert c == s[1..][..n];
      forall t: Bytes ensures Close(c + [QUOTE] + t) == Some(n) { CloseIsLocal(s[1..], t); }
    }
  }

  lemma {:induction false} TokensOfPrint(ps: seq<Piece>)
    requires WellFormed(ps)
    ensures Tokens(Print(ps)) == ps
  {
    if ps != [] {
      TokensOfPrint(ps[1..]);
      match ps[0]
      case Plain(b) => assert Print(ps)[1..] == Print(ps[1..]);
      case Str(c) => JoinString(c, Print(ps[1..]));
      case Tail(t) => assert Print(ps) == t && ps == [Tail(t)];
    }
  }

  // ---- Appending Z keeps the tokens apart

  lemma {:induction false} CloseOfClean(c: Bytes, t: Bytes)
    requires forall i :: 0 <= i < |c| ==> c[i] != QUOTE && c[i] != BACKSLASH
    ensures Close(c + [QUOTE] + t) == Some(|c|)
  {
    var s := c + [QUOTE] + t;
    if c != [] {
      CloseOfClean(c[1..], t);
      assert s[1..] == c[1..] + [QUOTE] + t;
    }
  }

  lemma {:induction false} NaiveIsClean(c: Bytes)
    requires IsNaive(c)
    ensures forall i :: 0 <= i < |c| ==> c[i] != QUOTE && c[i] != BACKSLASH
    ensures !IsNaive(c + [ZULU])
  {
    assert forall i :: 0 <= i < |c| ==> IsDigit(c[i]) || c[i] in {45, 84, COLON, 46};
    var z := c + [ZULU];
    assert z[|z| - 1] == ZULU && !IsDigit(ZULU);
  }

  lemma {:induction false} ZonedWellFormed(ps: seq<Piece>)
    requires WellFormed(ps)
    ensures WellFormed(Zoned(ps))
  {
    if ps != [] {
      ZonedWellFormed(ps[1..]);
      assert Zoned(ps)[1..] == Zoned(ps[1..]);
      if NeedsZone(ps[0], ps[1..]) {
        var c := ps[0].content + [ZULU];
        NaiveIsClean(ps[0].content);
        forall t: Bytes ensures Close(c + [QUOTE] + t) == Some(|c|) { CloseOfClean(c, t); }
      }
    }
  }

  lemma {:induction false} ZonedKeepsColons(ps: seq<Piece>)
    ensures BeforeColon(Zoned(ps)) <==> BeforeColon(ps)
  {
    if ps != [] {
      ZonedKeepsColons(ps[1..]);
      assert Zoned(ps)[1..] == Zoned(ps[1..]);
    }
  }

  lemma {:induction false} ZonedTwice(ps: seq<Piece>)
    ensures Zoned(Zoned(ps)) == Zoned(ps)
  {
    if ps != [] {
      ZonedTwice(ps[1..]);
      ZonedKeepsColons(ps[1..]);
      assert Zoned(ps)[1..] == Zoned(ps[1..]);
      if NeedsZone(ps[0], ps[1..]) { NaiveIsClean(ps[0].content); }
    }
  }

  /** The output has the input's tokens, in order: each naive timestamp value gained one Z inside its closing quote,
      and every other token is untouched. */
  lemma {:induction false} OnlyZonesAreAdded(s: Bytes)
    ensures Print(Tokens(s)) == s && Print(Tokens(Normalized(s))) == Normalized(s)
    ensures Tokens(Normalized(s)) == Zoned(Tokens(s))
    ensures var ps, qs := Tokens(s), Tokens(Normalized(s));
            |qs| == |ps| && forall k :: 0 <= k < |ps| ==>
              qs[k] == if NeedsZone(ps[k], ps[k + 1..]) then Str(ps[k].content + [ZULU]) else ps[k]
  {
    forall k | 0 <= k < |Tokens(s)| ensures Zoned(Tokens(s))[k] == ZonedPiece(Tokens(s)[k], Tokens(s)[k + 1..]) {
      ZonedAt(Tokens(s), k);
    }
    PrintTokens(s);
    TokensWellFormed(s);
    ZonedWellFormed(Tokens(s));
    TokensOfPrint(Zoned(Tokens(s)));
  }

  /** A second application changes nothing. */
  lemma {:induction false} NormalizeTwice(s: Bytes)
    ensures Normalized(Normalized(s)) == Normalized(s)
  {
    OnlyZonesAreAdded(s);
    ZonedTwice(Tokens(s));
  }

  function ZonesAdded(ps: seq<Piece>): nat {
    if ps == [] then 0 else (if NeedsZone(ps[0], ps[1..]) then 1 else 0) + ZonesAdded(ps[1..])
  }

  /** The output is longer by one byte per timestamp, so without any it is the input. */
  lemma {:induction false} LengthGrows(ps: seq<Piece>)
    ensures |Print(Zoned(ps))| == |Print(ps)| + ZonesAdded(ps)
    ensures ZonesAdded(ps) == 0 ==> Zoned(ps) == ps
  {
    if ps != [] {
      LengthGrows(ps[1..]);
      assert Zoned(ps)[1..] == Zoned(ps[1..]);
    }
  }

  // ---- The scan

  predicate ColonNext(s: Bytes) {
    s != [] && (s[0] == COLON || (IsSpace(s[0]) && ColonNext(s[1..])))
  }

  lemma {:induction false} ColonNextIsToken(s: Bytes)
    ensures ColonNext(s) <==> BeforeColon(Tokens(s))
  {
    if s != [] && s[0] != QUOTE {
      ColonNextIsToken(s[1..]);
      assert Tokens(s)[1..] == Tokens(s[1..]);
    }
  }

  /** Whether the next byte that is not white space, at or after i, is a colon. */
  method IsKey(body: Bytes, i: nat) returns (r: bool)
    requires i <= |body|
    ensures r == ColonNext(body[i..])
  {
    var j := i;
    while j < |body|
      invariant i <= j <= |body|
      invariant ColonNext(body[i..]) == ColonNext(body[j..])
    {
      assert body[j..][1..] == body[j + 1..];
      if !IsSpace(body[j]) {
        return body[j] == COLON;
      }
      j := j + 1;
    }
    return false;
  }

  /** Close of a suffix, counted from an earlier start. */
  function Shifted(r: Option<nat>, steps: nat): Option<nat> {
    match r
    case None => None
    case Some(n) => Some(n + steps)
  }

  /** Scanning from start has reached end without meeting a closing quote. */
  ghost predicate Unclosed(body: Bytes, start: nat, end: nat)
    requires start <= |body|
  {
    start <= end && Close(body[start..]) == if end <= |body| then Shifted(Close(body[end..]), end - start) else None
  }

  lemma {:induction false} UnclosedStep(body: Bytes, start: nat, end: nat)
    requires start <= end < |body| && body[end] != QUOTE && Unclosed(body, start, end)
    ensures Unclosed(body, start, end + if body[end] == BACKSLASH then 2 else 1)
  {
    var skip := if body[end] == BACKSLASH then 2 else 1;
    if end + skip <= |body| { assert body[end..][skip..] == body[end + skip..]; }
  }

  /** The end index of the string that starts at start: its closing quote, or past the input. */
  method FindEnd(body: Bytes, start: nat) returns (end: nat)
    requires start <= |body|
    ensures start <= end
    ensures Close(body[start..]) == if end < |body| then Some(end - start) else None
  {
    end := start;
    while end < |body| && body[end] != QUOTE
      invariant start <= end <= |body| + 1
      invariant Unclosed(body, start, end)
    {
      UnclosedStep(body, start, end);
      if body[end] == BACKSLASH {
        end := end + 1;
      }
      end := end + 1;
    }
  }

  lemma {:induction false} PlainStep(s: Bytes)
    requires s != [] && s[0] != QUOTE
    ensures Normalized(s) == [s[0]] + Normalized(s[1..])
  {
    ZonedCons(Plain(s[0]), Tokens(s[1..]));
  }

  /** What becomes of one string. */
  function Written(c: Bytes, zone: bool): Bytes {
    PrintPiece(Str(if zone then c + [ZULU] else c))
  }

  lemma {:induction false} StringStep(s: Bytes, n: nat)
    requires s != [] && s[0] == QUOTE && Close(s[1..]) == Some(n)
    ensures n + 2 <= |s| && s[n + 1] == QUOTE
    ensures Normalized(s) ==
            Written(s[1..n + 1], IsNaive(s[1..n + 1]) && !ColonNext(s[n + 2..])) + Normalized(s[n + 2..])
  {
    SplitString(s, n);
    var c, rest := s[1..n + 1], s[n + 2..];
    assert Tokens(s) == [Str(c)] + Tokens(rest);
    ColonNextIsToken(rest);
    ZonedCons(Str(c), Tokens(rest));
  }

  lemma {:induction false} ZonedCons(p: Piece, ps: seq<Piece>)
    ensures Print(Zoned([p] + ps)) == PrintPiece(ZonedPiece(p, ps)) + Print(Zoned(ps))
  {
    assert ([p] + ps)[1..] == ps;
    PrintCons(ZonedPiece(p, ps), Zoned(ps));
  }

  lemma {:induction false} UnterminatedStep(s: Bytes)
    requires s != [] && s[0] == QUOTE && Close(s[1..]) == None
    ensures Normalized(s) == s
  {
    assert Tokens(s) == [Tail(s)] && Zoned([Tail(s)]) == [Tail(s)];
    PrintCons(Tail(s), []);
  }

  /** Copying the string at i..end, with a Z before its quote or not. */
  lemma {:induction false} CopyString(body: Bytes, out: Bytes, copied: nat, i: nat, end: nat)
    requires copied <= i < end < |body| && body[i] == QUOTE && body[end] == QUOTE
    ensures out + body[copied..end + 1] == out + body[copied..i] + Written(body[i + 1..end], false)
    ensures out + body[copied..end] + [ZULU] + body[end..end + 1] ==
            out + body[copied..i] + Written(body[i + 1..end], true)
  {
    var c := body[i + 1..end];
    var head := body[copied..i];
    assert body[copied..end] == head + ([QUOTE] + c);
    assert body[copied..end + 1] == head + ([QUOTE] + c + [QUOTE]);
    Assoc(out, head, [QUOTE] + c + [QUOTE]);
    Assoc(out, head, [QUOTE] + c);
    Assoc(out + head, [QUOTE] + c, [ZULU]);
    Assoc([QUOTE], c, [ZULU]);
    assert body[end..end + 1] == [QUOTE];
    Assoc(out + head, [QUOTE] + (c + [ZULU]), [QUOTE]);
  }

  /** The tokenizer's equation at s, as a law of any function: all that the scan relies on. */
  ghost predicate NormalLaw(normal: Bytes -> Bytes, s: Bytes) {
    if s == [] then normal(s) == []
    else if s[0] != QUOTE then normal(s) == [s[0]] + normal(s[1..])
    else
      match Close(s[1..])
      case None => normal(s) == s
      case Some(n) =>
        n + 2 <= |s| && s[n + 1] == QUOTE
        && normal(s) == Written(s[1..n + 1], IsNaive(s[1..n + 1]) && !ColonNext(s[n + 2..])) + normal(s[n + 2..])
  }

  ghost predicate NormalLaws(normal: Bytes -> Bytes) {
    forall s: Bytes :: NormalLaw(normal, s)
  }

  lemma {:induction false} NormalizedLaws()
    ensures NormalLaws(Normalized)
  {
    forall s: Bytes ensures NormalLaw(Normalized, s) { NormalizedLaw(s); }
  }

  lemma {:induction false} NormalizedLaw(s: Bytes)
    ensures NormalLaw(Normalized, s)
  {
    if s == [] {
    } else if s[0] != QUOTE {
      PlainStep(s);
    } else if Close(s[1..]).None? {
      UnterminatedStep(s);
    } else {
      StringStep(s, Close(s[1..]).value);
    }
  }

  /** i is outside strings, and out followed by body[copied..i] is what was decided so far. */
  ghost predicate Scanned(normal: Bytes -> Bytes, body: Bytes, out: Bytes, copied: nat, i: nat) {
    copied <= i <= |body| && out + body[copied..i] + normal(body[i..]) == normal(body)
  }

  lemma {:induction false} ScanPlain(normal: Bytes -> Bytes, body: Bytes, out: Bytes, copied: nat, i: nat)
    requires NormalLaws(normal) && Scanned(normal, body, out, copied, i) && i < |body| && body[i] != QUOTE
    ensures Scanned(normal, body, out, copied, i + 1)
  {
    assert NormalLaw(normal, body[i..]);
    assert body[i..][1..] == body[i + 1..];
    Assoc(out + body[copied..i], [body[i]], normal(body[i + 1..]));
    assert body[copied..i + 1] == body[copied..i] + [body[i]];
    Assoc(out, body[copied..i], [body[i]]);
  }

  /** A string's law, told by positions. */
  lemma {:induction false} SuffixSlices(body: Bytes, i: nat, end: nat)
    requires i < end < |body|
    ensures var s := body[i..];
            && s != [] && s[0] == body[i] && end - i < |s| && s[end - i] == body[end]
            && s[1..] == body[i + 1..] && s[1..end - i] == body[i + 1..end] && s[end - i + 1..] == body[end + 1..]
  {
  }

  lemma {:induction false} StringAt(normal: Bytes -> Bytes, body: Bytes, i: nat, end: nat, zone: bool)
    requires NormalLaws(normal) && i < end < |body| && body[i] == QUOTE
    requires Close(body[i + 1..]) == Some(end - i - 1)
    requires zone == (IsNaive(body[i + 1..end]) && !ColonNext(body[end + 1..]))
    ensures body[end] == QUOTE
    ensures normal(body[i..]) == Written(body[i + 1..end], zone) + normal(body[end + 1..])
  {
    SuffixSlices(body, i, end);
    LawAt(normal, body[i..], end - i - 1, body[i + 1..end], body[end + 1..]);
  }

  lemma {:induction false} LawAt(normal: Bytes -> Bytes, s: Bytes, n: nat, c: Bytes, rest: Bytes)
    requires NormalLaws(normal) && s != [] && s[0] == QUOTE && Close(s[1..]) == Some(n) && n + 2 <= |s|
    requires c == s[1..n + 1] && rest == s[n + 2..]
    ensures s[n + 1] == QUOTE && normal(s) == Written(c, IsNaive(c) && !ColonNext(rest)) + normal(rest)
  {
    assert NormalLaw(normal, s);
  }

  lemma {:induction false} ScanString(normal: Bytes -> Bytes, body: Bytes, out: Bytes, copied: nat, i: nat, end: nat)
    requires Scanned(normal, body, out, copied, i) && i < end < |body| && body[i] == QUOTE && body[end] == QUOTE
    requires normal(body[i..]) == Written(body[i + 1..end], false) + normal(body[end + 1..])
    ensures Scanned(normal, body, out, copied, end + 1)
  {
    CopyString(body, out, copied, i, end);
    Assoc(out + body[copied..i], Written(body[i + 1..end], false), normal(body[end + 1..]));
  }

  lemma {:induction false} ScanZone(normal: Bytes -> Bytes, body: Bytes, out: Bytes, copied: nat, i: nat, end: nat)
    requires Scanned(normal, body, out, copied, i) && i < end < |body| && body[i] == QUOTE && body[end] == QUOTE
    requires normal(body[i..]) == Written(body[i + 1..end], true) + normal(body[end + 1..])
    ensures Scanned(normal, body, out + body[copied..end] + [ZULU], end, end + 1)
  {
    CopyString(body, out, copied, i, end);
    Assoc(out + body[copied..i], Written(body[i + 1..end], true), normal(body[end + 1..]));
  }

  lemma {:induction false} TokenStep(normal: Bytes -> Bytes, body: Bytes, out: Bytes, copied: nat, i: nat,
          end: nat, zone: bool)
    requires NormalLaws(normal) && Scanned(normal, body, out, copied, i) && i < end < |body| && body[i] == QUOTE
    requires Close(body[i + 1..]) == Some(end - i - 1)
    requires zone == (IsNaive(body[i + 1..end]) && !ColonNext(body[end + 1..]))
    ensures !zone ==> Scanned(normal, body, out, copied, end + 1)
    ensures zone ==> Scanned(normal, body, out + body[copied..end] + [ZULU], end, end + 1)
  {
    StringAt(normal, body, i, end, zone);
    if zone {
      ScanZone(normal, body, out, copied, i, end);
    } else {
      ScanString(normal, body, out, copied, i, end);
    }
  }

  /** At the end, or at an unterminated string, the rest is copied as it is. */
  lemma {:induction false} ScanRest(normal: Bytes -> Bytes, body: Bytes, out: Bytes, copied: nat, i: nat)
    requires NormalLaws(normal) && Scanned(normal, body, out, copied, i)
    requires i == |body| || (body[i] == QUOTE && Close(body[i + 1..]) == None)
    ensures out + body[copied..] == normal(body)
  {
    assert NormalLaw(normal, body[i..]);
    assert i < |body| ==> body[i..][1..] == body[i + 1..];
    assert body[copied..] == body[copied..i] + body[i..];
    Assoc(out, body[copied..i], body[i..]);
  }

  lemma {:induction false} ScanStart(normal: Bytes -> Bytes, body: Bytes)
    ensures Scanned(normal, body, [], 0, 0)
  {
    assert body[0..] == body && [] + body[0..0] == [];
    assert [] + normal(body) == normal(body);
  }

  method NormalizeTimestamps(body: Bytes) returns (r: Bytes)
    ensures r == Normalized(body)
  {
    NormalizedLaws();
    r := Scan(body, Normalized);
  }

  /** The index loop: i stays outside strings, copied trails it, and out grows at each rewrite. */
  method Scan(body: Bytes, ghost normal: Bytes -> Bytes) returns (r: Bytes)
    requires NormalLaws(normal)
    ensures r == normal(body)
  {
    var out: Bytes, copied: nat, i: nat := [], 0, 0;
    ScanStart(normal, body);
    while i < |body|
      invariant copied <= i <= |body|
      invariant Scanned(normal, body, out, copied, i)
    {
      if body[i] != QUOTE {
        ScanPlain(normal, body, out, copied, i);
        i := i + 1;
        continue;
      }
      var start := i + 1;
      var end := FindEnd(body, start);
      if end >= |body| {
        ScanRest(normal, body, out, copied, i);
        return out + body[copied..];
      }
      out, copied := Rewrite(body, normal, out, copied, i, end);
      i := end + 1;
    }
    ScanRest(normal, body, out, copied, i);
    return out + body[copied..];
  }

  /** Appends Z to the string that ends at end if it is a naive timestamp and not a key. */
  method Rewrite(body: Bytes, ghost normal: Bytes -> Bytes, out: Bytes, copied: nat, i: nat, end: nat)
    returns (longer: Bytes, from: nat)
    requires NormalLaws(normal) && Scanned(normal, body, out, copied, i) && i < end < |body| && body[i] == QUOTE
    requires Close(body[i + 1..]) == Some(end - i - 1)
    ensures Scanned(normal, body, longer, from, end + 1)
  {
    var zone := NeedsRewrite(body, i + 1, end);
    TokenStep(normal, body, out, copied, i, end, zone);
    if !zone { return out, copied; }
    return out + body[copied..end] + [ZULU], end;
  }

  method NeedsRewrite(body: Bytes, start: nat, end: nat) returns (zone: bool)
    requires start <= end < |body|
    ensures zone == (IsNaive(body[start..end]) && !ColonNext(body[end + 1..]))
  {
    if !IsNaive(body[start..end]) { return false; }
    var key := IsKey(body, end + 1);
    return !key;
  }
}
