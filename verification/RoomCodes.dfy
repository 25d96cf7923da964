/** Six-digit room codes: how a draw is printed, and that printing loses nothing. */
module RoomCodes {
  import opened Domain

  const CODE_SPACE: nat := 1_000_000
  const CODE_WIDTH: nat := 6
  const MAX_ATTEMPTS: nat := 100

  type Draw = n: nat | n < CODE_SPACE

  function Digit(d: nat): char
    requires d < 10
  {
    ['0', '1', '2', '3', '4', '5', '6', '7', '8', '9'][d]
  }

  function DigitValue(c: char): nat {
    if '0' <= c <= '9' then (c - '0') as nat else 0
  }

  /** Decimal digits of n without leading zeros, as an integer is inserted into a stream. */
  function Decimal(n: nat): string {
    if n < 10 then [Digit(n)] else Decimal(n / 10) + [Digit(n % 10)]
  }

  function PadLeft(s: string, width: nat): string
    decreases width - |s|
  {
    if |s| >= width then s else PadLeft(['0'] + s, width)
  }

  function FormatCode(n: Draw): RoomCode {
    PadLeft(Decimal(n), CODE_WIDTH)
  }

  /** The number that a string of digits denotes. */
  function Value(s: string): nat {
    if s == [] then 0 else 10 * Value(s[..|s| - 1]) + DigitValue(s[|s| - 1])
  }

  ghost predicate AllDigits(s: string) {
    forall i :: 0 <= i < |s| ==> '0' <= s[i] <= '9'
  }

  lemma DigitRoundTrip(d: nat)
    requires d < 10
    ensures DigitValue(Digit(d)) == d && '0' <= Digit(d) <= '9'
  {
  }

  lemma {:induction false} DecimalDenotes(n: nat)
    ensures Value(Decimal(n)) == n && AllDigits(Decimal(n))
  {
    if n < 10 {
      DigitRoundTrip(n);
      assert Decimal(n)[..0] == [];
    } else {
      DecimalDenotes(n / 10);
      DigitRoundTrip(n % 10);
      var s := Decimal(n);
      assert s[..|s| - 1] == Decimal(n / 10);
    }
  }

  lemma {:induction false} DecimalWidth(n: nat, w: nat, bound: nat)
    requires bound == Power10(w) && n < bound && 1 <= w
    ensures 1 <= |Decimal(n)| <= w
  {
    if n >= 10 {
      assert w > 1;
      assert bound == 10 * Power10(w - 1);
      assert n / 10 < Power10(w - 1);
      DecimalWidth(n / 10, w - 1, Power10(w - 1));
    }
  }

  function Power10(w: nat): nat {
    if w == 0 then 1 else 10 * Power10(w - 1)
  }

  lemma {:induction false} ZeroPrefixKeepsValue(s: string)
    ensures Value(['0'] + s) == Value(s)
  {
    var t := ['0'] + s;
    if s == [] {
      assert t[..0] == [];
    } else {
      ZeroPrefixKeepsValue(s[..|s| - 1]);
      assert t[..|t| - 1] == ['0'] + s[..|s| - 1];
    }
  }

  lemma {:induction false} PadLeftKeepsValue(s: string, width: nat)
    requires |s| <= width
    ensures |PadLeft(s, width)| == width
    ensures Value(PadLeft(s, width)) == Value(s)
    ensures AllDigits(s) ==> AllDigits(PadLeft(s, width))
    decreases width - |s|
  {
    if |s| < width {
      ZeroPrefixKeepsValue(s);
      PadLeftKeepsValue(['0'] + s, width);
    }
  }

  /** A code has exactly six digits and denotes the draw it came from, so distinct draws never
      share a code. */
  lemma CodeRoundTrip(n: Draw)
    ensures |FormatCode(n)| == 6
    ensures AllDigits(FormatCode(n))
    ensures Value(FormatCode(n)) == n
  {
    SixPlaces();
    DecimalWidth(n, CODE_WIDTH, CODE_SPACE);
    DecimalDenotes(n);
    PadLeftKeepsValue(Decimal(n), CODE_WIDTH);
  }

  lemma {:induction false} DigitsSplit(s: string)
    requires s != [] && AllDigits(s)
    ensures AllDigits(s[..|s| - 1]) && '0' <= s[|s| - 1] <= '9'
    ensures Value(s) == 10 * Value(s[..|s| - 1]) + DigitValue(s[|s| - 1]) && DigitValue(s[|s| - 1]) < 10
    ensures s == s[..|s| - 1] + [s[|s| - 1]]
  {
  }

  lemma {:induction false} ValueIsBounded(s: string)
    requires AllDigits(s)
    ensures Value(s) < Power10(|s|)
  {
    if s != [] {
      DigitsSplit(s);
      ValueIsBounded(s[..|s| - 1]);
    }
  }

  lemma {:induction false} ValueDetermines(a: string, b: string)
    requires |a| == |b| && AllDigits(a) && AllDigits(b) && Value(a) == Value(b)
    ensures a == b
  {
    if a != [] {
      hide Value, DigitValue;
      DigitsSplit(a);
      DigitsSplit(b);
      DigitValueDetermines(a[|a| - 1], b[|b| - 1]);
      ValueDetermines(a[..|a| - 1], b[..|b| - 1]);
    }
  }

  lemma DigitValueDetermines(c: char, d: char)
    requires '0' <= c <= '9' && '0' <= d <= '9' && DigitValue(c) == DigitValue(d)
    ensures c == d
  {
  }

  lemma SixPlaces()
    ensures Power10(6) == 1_000_000
  {
    assert Power10(3) == 1000;
    assert Power10(6) == 1000 * Power10(3);
  }

  /** Conversely every six digits are a code: each of the million is drawn for some number. */
  lemma SixDigitsAreACode(s: string)
    requires |s| == 6 && AllDigits(s)
    ensures Value(s) < 1_000_000 && FormatCode(Value(s)) == s
  {
    ValueIsBounded(s);
    SixPlaces();
    CodeRoundTrip(Value(s));
    ValueDetermines(FormatCode(Value(s)), s);
  }

  lemma CodesAreInjective(m: Draw, n: Draw)
    requires FormatCode(m) == FormatCode(n)
    ensures m == n
  {
    CodeRoundTrip(m);
    CodeRoundTrip(n);
  }

  ghost predicate IsCode(c: RoomCode) {
    exists n: Draw :: FormatCode(n) == c
  }

  /** Any set of codes has at most as many elements as there are draws. */
  lemma CodeSpaceBound(codes: set<RoomCode>)
    requires forall c :: c in codes ==> IsCode(c)
    ensures |codes| <= 1_000_000
  {
    forall c | c in codes
      ensures Value(c) < CODE_SPACE
    {
      var n: Draw :| FormatCode(n) == c;
      CodeRoundTrip(n);
    }
    forall c, d | c in codes && d in codes && Value(c) == Value(d)
      ensures c == d
    {
      var m: Draw :| FormatCode(m) == c;
      var n: Draw :| FormatCode(n) == d;
      CodeRoundTrip(m);
      CodeRoundTrip(n);
    }
    InjectionBound(codes, CODE_SPACE);
  }

  lemma {:induction false} InjectionBound(codes: set<RoomCode>, bound: nat)
    requires forall c :: c in codes ==> Value(c) < bound
    requires forall c, d :: c in codes && d in codes && Value(c) == Value(d) ==> c == d
    ensures |codes| <= bound
    decreases bound
  {
    if codes != {} {
      if c :| c in codes && Value(c) == bound - 1 {
        InjectionBound(codes - {c}, bound - 1);
      } else {
        var c :| c in codes;
        assert Value(c) < bound;
        InjectionBound(codes, bound - 1);
      }
    }
  }
}
