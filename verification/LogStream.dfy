/** Integers as text, and the fixed buffer that log lines are put together in. */
module LogStream {
  import opened Truncation

  // ---------- numerals ----------

  const DIGITS := "9876543210123456789"
  const ZERO := 9
  const DIGITS_HEX := "0123456789ABCDEF"

  predicate IsBase(base: nat) { base == 10 || base == 16 }

  /** The value of a digit, or -1. */
  function DigitValue(c: char): int {
    if '0' <= c <= '9' then c as int - '0' as int else if 'A' <= c <= 'F' then c as int - 'A' as int + 10 else -1
  }

  predicate AllDigits(s: string, base: nat) { forall c <- s :: 0 <= DigitValue(c) < base }

  /** What a string of digits means. */
  function Value(s: string, base: nat): int {
    if s == "" then 0 else Value(s[..|s| - 1], base) * base + DigitValue(s[|s| - 1])
  }

  /** A numeral with no superfluous zero. */
  predicate IsNatural(s: string, base: nat) {
    s != "" && AllDigits(s, base) && (s[0] == '0' ==> |s| == 1)
  }

  /** A canonical decimal: a natural, or a minus sign and a natural other than zero. */
  predicate IsDecimal(s: string) {
    IsNatural(s, 10) || (s != "" && s[0] == '-' && IsNatural(s[1..], 10) && s[1] != '0')
  }

  function DecimalValue(s: string): int
    requires IsDecimal(s)
  {
    if s[0] == '-' then -Value(s[1..], 10) else Value(s, 10)
  }

  /** The digits of n, the least significant first. */
  function Digits(n: nat, base: nat): (s: string)
    requires IsBase(base)
    ensures s != ""
  {
    if n < base then [DIGITS_HEX[n]] else [DIGITS_HEX[n % base]] + Digits(n / base, base)
  }

  function Reverse<T>(s: seq<T>): (r: seq<T>)
    ensures |r| == |s| && forall k :: 0 <= k < |s| ==> r[k] == s[|s| - 1 - k]
  {
    if s == [] then [] else Reverse(s[1..]) + [s[0]]
  }

  function Natural(n: nat, base: nat): string
    requires IsBase(base)
  {
    Reverse(Digits(n, base))
  }

  function Magnitude(v: int): nat { if v < 0 then -v else v }

  function Decimal(v: int): string {
    if v < 0 then "-" + Natural(-v, 10) else Natural(v, 10)
  }

  lemma DigitsHex(d: nat)
    requires d < 16
    ensures |DIGITS_HEX| == 16 && DigitValue(DIGITS_HEX[d]) == d && (d > 0 ==> DIGITS_HEX[d] != '0')
  {
  }

  lemma NaturalStep(n: nat, base: nat)
    requires IsBase(base) && n >= base
    ensures Natural(n, base) == Natural(n / base, base) + [DIGITS_HEX[n % base]]
  {
  }

  lemma ValueStep(high: string, c: char, base: nat)
    ensures Value(high + [c], base) == Value(high, base) * base + DigitValue(c)
  {
    assert (high + [c])[..|high|] == high;
  }

  lemma IsNaturalStep(high: string, c: char, base: nat)
    requires IsNatural(high, base) && high[0] != '0' && 0 <= DigitValue(c) < base
    ensures IsNatural(high + [c], base) && (high + [c])[0] != '0'
  {
  }

  lemma SplitDigits(high: nat, low: nat, base: nat)
    requires IsBase(base) && low < base
    ensures (high * base + low) / base == high && (high * base + low) % base == low
  {
    if base == 10 {
      assert (high * 10 + low) / 10 == high;
    } else {
      assert (high * 16 + low) / 16 == high;
    }
  }

  lemma {:induction false} NaturalIs(n: nat, base: nat)
    requires IsBase(base)
    ensures IsNatural(Natural(n, base), base) && Value(Natural(n, base), base) == n
    ensures n > 0 ==> Natural(n, base)[0] != '0'
    decreases n, 1
  {
    hide *;
    if n < base {
      NaturalDigit(n, base);
    } else {
      NaturalMore(n, base);
    }
  }

  lemma NaturalStart(n: nat, base: nat)
    requires IsBase(base) && n < base
    ensures Natural(n, base) == [DIGITS_HEX[n]]
  {
  }

  lemma NaturalDigit(n: nat, base: nat)
    requires IsBase(base) && n < base
    ensures IsNatural(Natural(n, base), base) && Value(Natural(n, base), base) == n
    ensures n > 0 ==> Natural(n, base)[0] != '0'
  {
    hide Natural, Digits, Reverse;
    DigitsHex(n);
    NaturalStart(n, base);
    ValueStep("", DIGITS_HEX[n], base);
    assert "" + [DIGITS_HEX[n]] == [DIGITS_HEX[n]];
  }

  lemma {:induction false} NaturalMore(n: nat, base: nat)
    requires IsBase(base) && n >= base
    ensures IsNatural(Natural(n, base), base) && Value(Natural(n, base), base) == n && Natural(n, base)[0] != '0'
    decreases n, 0
  {
    hide *;
    HighPart(n, base);
    NaturalIs(n / base, base);
    DigitsHex(n % base);
    NaturalStep(n, base);
    IsNaturalStep(Natural(n / base, base), DIGITS_HEX[n % base], base);
    ValueStep(Natural(n / base, base), DIGITS_HEX[n % base], base);
  }

  lemma HighPart(n: nat, base: nat)
    requires IsBase(base) && n >= base
    ensures 0 < n / base < n && 0 <= n % base < base <= 16 && n == n / base * base + n % base
  {
    if base == 10 {
      assert 0 < n / 10 < n;
    } else {
      assert 0 < n / 16 < n;
    }
  }

  /** Only one canonical numeral has a given value. */
  lemma {:induction false} NaturalOnly(s: string, base: nat)
    requires IsBase(base) && IsNatural(s, base)
    ensures Value(s, base) >= 0 && s == Natural(Value(s, base), base)
    decreases |s|, 1
  {
    hide *;
    TakeLast(s, base);
    if |s| == 1 {
      NaturalOnlyDigit(s, base);
    } else {
      NaturalOnlyMore(s[..|s| - 1], s[|s| - 1], base);
    }
  }

  lemma TakeLast(s: string, base: nat)
    requires IsNatural(s, base)
    ensures |s| > 0 && s == s[..|s| - 1] + [s[|s| - 1]]
    ensures |s| > 1 ==> IsNatural(s[..|s| - 1], base) && s[0] != '0' && 0 <= DigitValue(s[|s| - 1]) < base
  {
  }

  lemma NaturalOnlyDigit(s: string, base: nat)
    requires IsBase(base) && IsNatural(s, base) && |s| == 1
    ensures Value(s, base) >= 0 && s == Natural(Value(s, base), base)
  {
    hide Natural, Value;
    OneDigit(s[0], base);
    ValueStep("", s[0], base);
    ValueOfNothing(base);
    assert s == "" + [s[0]];
    NaturalStart(DigitValue(s[0]), base);
  }

  lemma ValueOfNothing(base: nat)
    ensures Value("", base) == 0
  {
  }

  lemma {:induction false} NaturalOnlyMore(high: string, c: char, base: nat)
    requires IsBase(base) && IsNatural(high, base) && high[0] != '0' && 0 <= DigitValue(c) < base
    ensures Value(high + [c], base) >= 0 && high + [c] == Natural(Value(high + [c], base), base)
    decreases |high| + 1, 0
  {
    OneDigit(c, base);
    assert base > 0 && AllDigits(high, base) && high != "";
    hide *;
    NaturalOnly(high, base);
    LeadingDigit(high, base);
    ValueShift(high, c, base);
    NaturalShift(Value(high, base), DigitValue(c), base);
  }

  /** One more digit behind a number. */
  function Shift(v: int, low: int, base: nat): int { v * base + low }

  lemma ValueShift(high: string, c: char, base: nat)
    ensures Value(high + [c], base) == Shift(Value(high, base), DigitValue(c), base)
  {
    hide Value, DigitValue;
    ValueStep(high, c, base);
  }

  lemma NaturalShift(v: nat, low: nat, base: nat)
    requires IsBase(base) && v > 0 && low < base <= 16
    ensures Shift(v, low, base) >= 0 && |DIGITS_HEX| == 16
    ensures Natural(Shift(v, low, base), base) == Natural(v, base) + [DIGITS_HEX[low]]
  {
    hide Natural;
    SplitDigits(v, low, base);
    AtLeast(v, base);
    NaturalStep(v * base + low, base);
  }

  lemma AtLeast(high: nat, base: nat)
    requires high > 0
    ensures high * base >= base
  {
    assert high * base == (high - 1) * base + base;
  }

  lemma OneDigit(c: char, base: nat)
    requires IsBase(base) && 0 <= DigitValue(c) < base
    ensures DIGITS_HEX[DigitValue(c)] == c
  {
  }

  /** A numeral that does not start with zero has a positive value. */
  lemma {:induction false} LeadingDigit(s: string, base: nat)
    requires s != "" && AllDigits(s, base) && s[0] != '0' && base > 0
    ensures Value(s, base) > 0
  {
    if |s| == 1 {
      assert s[..0] == "";
    } else {
      LeadingDigit(s[..|s| - 1], base);
    }
  }

  /** The text of an integer is canonical and reads back as that integer ... */
  lemma DecimalReadsBack(v: int)
    ensures IsDecimal(Decimal(v)) && DecimalValue(Decimal(v)) == v
  {
    hide Natural, Value;
    NaturalIs(Magnitude(v), 10);
    if v < 0 {
      assert Decimal(v)[1..] == Natural(-v, 10);
    } else {
      assert Natural(v, 10)[0] in Natural(v, 10) && DigitValue('-') == -1;
    }
  }

  /** ... and no other canonical text does. */
  lemma DecimalOnly(s: string)
    requires IsDecimal(s)
    ensures s == Decimal(DecimalValue(s))
  {
    hide Natural, Value;
    if s[0] == '-' {
      assert DigitValue('-') == -1;
      NaturalOnly(s[1..], 10);
      LeadingDigit(s[1..], 10);
      assert s == "-" + s[1..];
    } else {
      NaturalOnly(s, 10);
    }
  }

  function Power(base: nat, k: nat): nat { if k == 0 then 1 else base * Power(base, k - 1) }

  lemma {:induction false} DigitsCount(n: nat, base: nat, k: nat)
    requires IsBase(base) && k > 0 && n < Power(base, k)
    ensures |Digits(n, base)| <= k
    decreases k
  {
    if n >= base {
      assert k > 1 by { assert Power(base, 1) == base * Power(base, 0); }
      QuotientBelow(n, base, Power(base, k - 1));
      DigitsCount(n / base, base, k - 1);
    }
  }

  lemma QuotientBelow(n: nat, base: nat, p: nat)
    requires base > 0 && n < base * p
    ensures n / base < p
  {
    ProductsOrdered(base, p, n / base);
    assert base * (n / base) <= n;
  }

  lemma ProductsOrdered(a: nat, p: nat, q: nat)
    ensures p <= q ==> a * p <= a * q
  {
    if p <= q {
      assert a * q == a * p + a * (q - p);
    }
  }

  /** Every 64-bit value, signed or unsigned, takes at most twenty characters. */
  predicate Is64Bit(v: int) { -0x8000_0000_0000_0000 <= v < 0x1_0000_0000_0000_0000 }

  lemma Powers()
    ensures Power(10, 19) == 10_000_000_000_000_000_000 && Power(10, 20) == 100_000_000_000_000_000_000
    ensures Power(16, 16) == 0x1_0000_0000_0000_0000
  {
    assert Power(10, 5) == 100_000;
    assert Power(10, 10) == 10_000_000_000;
    assert Power(10, 15) == 1_000_000_000_000_000;
    assert Power(16, 4) == 0x1_0000;
    assert Power(16, 8) == 0x1_0000_0000;
    assert Power(16, 12) == 0x1_0000_0000_0000;
  }

  lemma DecimalFits(v: int)
    requires Is64Bit(v)
    ensures |Decimal(v)| <= 20
  {
    Powers();
    DigitsCount(Magnitude(v), 10, if v < 0 then 19 else 20);
  }

  lemma HexFits(v: nat)
    requires v < 0x1_0000_0000_0000_0000
    ensures |Natural(v, 16)| <= 16
  {
    Powers();
    DigitsCount(v, 16, 16);
  }

  // ---------- the conversions, in place ----------

  /** std::reverse of buf[from..to]. */
  method ReverseRange(buf: array<char>, from: nat, to: nat)
    requires from <= to <= buf.Length
    modifies buf
    ensures buf[from..to] == Reverse(old(buf[from..to]))
    ensures buf[..from] == old(buf[..from]) && buf[to..] == old(buf[to..])
  {
    ghost var was := buf[from..to];
    var i, j := from, to;
    while i < j && i < j - 1
      invariant from <= i <= j <= to && i - from == to - j
      invariant buf[..from] == old(buf[..from]) && buf[to..] == old(buf[to..])
      invariant forall k :: from <= k < to ==> buf[k] == if i <= k < j then was[k - from] else was[to - 1 - k]
    {
      buf[i], buf[j - 1] := buf[j - 1], buf[i];
      i, j := i + 1, j - 1;
    }
    assert forall k :: 0 <= k < to - from ==> buf[from..to][k] == buf[from + k];
  }

  /** The digit that the table gives for a remainder of either sign. */
  lemma TableDigit(r: int)
    requires -9 <= r <= 9
    ensures |DIGITS| == 19 && |DIGITS_HEX| == 16 && DIGITS[ZERO + r] == DIGITS_HEX[Magnitude(r)]
  {
  }

  lemma OneStep(i: int)
    ensures -9 <= Rem(i, 10) <= 9 && Magnitude(Rem(i, 10)) == Magnitude(i) % 10
    ensures Magnitude(Quot(i, 10)) == Magnitude(i) / 10
  {
  }

  /** The digits of value, the least significant first, from at on. */
  method PutDigits(buf: array<char>, at: nat, value: int) returns (p: nat)
    requires at + |Digits(Magnitude(value), 10)| <= buf.Length
    modifies buf
    ensures p == at + |Digits(Magnitude(value), 10)| && buf[at..p] == Digits(Magnitude(value), 10)
    ensures buf[..at] == old(buf[..at]) && buf[p..] == old(buf[p..])
  {
    hide *;
    DecimalStep(value);
    ghost var text := Digits(Magnitude(value), 10);
    var i := value;
    ghost var m := Magnitude(i);
    p := at;
    var more := true;
    while more
      invariant at <= p <= at + |text| <= buf.Length
      invariant text == buf[at..p] + if more then Digits(m, 10) else ""
      invariant m == Magnitude(i)
      invariant buf[..at] == old(buf[..at]) && buf[p..] == old(buf[p..])
      decreases more, m
    {
      DecimalStep(i);
      ghost var before, digit := buf[at..p], DIGITS[ZERO + Rem(i, 10)];
      var lsd := Rem(i, 10);
      i := Quot(i, 10);
      m := Magnitude(i);
      more := i != 0;
      assert text == before + [digit] + if more then Digits(m, 10) else "";
      PutNext(buf, at, p, DIGITS[ZERO + lsd], old(buf[..]));
      p := p + 1;
    }
  }

  lemma DecimalStep(i: int)
    ensures IsBase(10) && Digits(Magnitude(i), 10) != "" && 0 <= ZERO + Rem(i, 10) < |DIGITS|
    ensures Quot(i, 10) != 0 ==> Magnitude(Quot(i, 10)) < Magnitude(i)
    ensures Digits(Magnitude(i), 10) ==
      [DIGITS[ZERO + Rem(i, 10)]] + if Quot(i, 10) == 0 then "" else Digits(Magnitude(Quot(i, 10)), 10)
  {
    OneStep(i);
    TableDigit(Rem(i, 10));
    hide Rem, Quot, DIGITS_HEX;
  }

  /** Terminates and reverses what stands at buf[at..p]. */
  method Finish(buf: array<char>, at: nat, p: nat)
    requires at <= p < buf.Length
    modifies buf
    ensures buf[at..p] == Reverse(old(buf[at..p])) && buf[p] == '\0'
    ensures buf[..at] == old(buf[..at]) && buf[p + 1..] == old(buf[p + 1..])
  {
    hide Reverse;
    buf[p] := '\0';
    ghost var tail := buf[p..];
    assert buf[..at] == old(buf[..at]) && tail[1..] == old(buf[p + 1..]) && buf[at..p] == old(buf[at..p]);
    ReverseRange(buf, at, p);
    assert buf[p] == tail[0] && buf[p + 1..] == tail[1..];
  }

  method PutChar(buf: array<char>, p: nat, c: char)
    requires p < buf.Length
    modifies buf
    ensures buf[..p + 1] == old(buf[..p]) + [c] && buf[p + 1..] == old(buf[p + 1..])
  {
    buf[p] := c;
  }

  /** One more character of a text that starts at at, in a buffer otherwise as it was. */
  method PutNext(buf: array<char>, at: nat, p: nat, c: char, ghost orig: string)
    requires at <= p < buf.Length == |orig| && buf[..at] == orig[..at] && buf[p..] == orig[p..]
    modifies buf
    ensures buf[at..p + 1] == old(buf[at..p]) + [c]
    ensures buf[..at] == orig[..at] && buf[p + 1..] == orig[p + 1..]
  {
    ghost var was := buf[..];
    PutChar(buf, p, c);
    AfterChar(was, buf[..], at, p, c);
    TailKept(orig, was, p, p + 1);
  }

  lemma AfterChar(was: string, now: string, at: nat, p: nat, c: char)
    requires at <= p < |was| == |now| && now[..p + 1] == was[..p] + [c]
    ensures now[at..p + 1] == was[at..p] + [c] && now[..at] == was[..at]
  {
    assert now[at..p + 1] == now[..p + 1][at..] && now[..at] == now[..p + 1][..at];
  }

  /** The digits and then the sign. */
  method PutSigned(buf: array<char>, at: nat, value: int) returns (p: nat)
    requires at + |Decimal(value)| <= buf.Length
    modifies buf
    ensures p == at + |Decimal(value)| && Reverse(buf[at..p]) == Decimal(value)
    ensures buf[..at] == old(buf[..at]) && buf[p..] == old(buf[p..])
  {
    hide *;
    DecimalReversed(value);
    p := PutDigits(buf, at, value);
    if value < 0 {
      PutNext(buf, at, p, '-', old(buf[..]));
      p := p + 1;
    }
  }

  /** Writes the canonical numeral of a 64-bit value and a terminating NUL, and nothing else. */
  method Convert(buf: array<char>, at: nat, value: int) returns (len: nat)
    requires Is64Bit(value) && at + 21 <= buf.Length
    modifies buf
    ensures 0 < len <= 20 && buf[at..at + len] == Decimal(value) && buf[at + len] == '\0'
    ensures buf[..at] == old(buf[..at]) && buf[at + len + 1..] == old(buf[at + len + 1..])
  {
    hide *;
    DecimalFits(value);
    DecimalReversed(value);
    var p := PutSigned(buf, at, value);
    TailKept(old(buf[..]), buf[..], p, p + 1);
    Finish(buf, at, p);
    len := p - at;
  }

  lemma TailKept(was: string, now: string, i: nat, j: nat)
    requires i <= j <= |was| == |now| && was[i..] == now[i..]
    ensures was[j..] == now[j..]
  {
    assert was[j..] == was[i..][j - i..];
  }

  lemma DecimalReversed(v: int)
    ensures IsBase(10) && Decimal(v) == Reverse(Digits(Magnitude(v), 10) + if v < 0 then "-" else "")
    ensures |Decimal(v)| == |Digits(Magnitude(v), 10)| + if v < 0 then 1 else 0
  {
    if v < 0 {
      ReverseEnd(Digits(-v, 10), '-');
    } else {
      assert Digits(v, 10) + "" == Digits(v, 10);
    }
  }

  lemma ReverseEnd<T>(s: seq<T>, x: T)
    ensures Reverse(s + [x]) == [x] + Reverse(s)
  {
  }

  lemma HexDigits(v: nat)
    ensures IsBase(16) && Natural(v, 16) == Reverse(Digits(v, 16)) && |Natural(v, 16)| == |Digits(v, 16)| > 0
    ensures |DIGITS_HEX| == 16
    ensures Digits(v, 16) == [DIGITS_HEX[v % 16]] + if v / 16 == 0 then "" else Digits(v / 16, 16)
  {
  }

  method PutHexDigits(buf: array<char>, at: nat, value: nat) returns (p: nat)
    requires at + |Natural(value, 16)| <= buf.Length
    modifies buf
    ensures p == at + |Natural(value, 16)| && buf[at..p] == Digits(value, 16)
    ensures buf[..at] == old(buf[..at]) && buf[p..] == old(buf[p..])
  {
    hide *;
    HexDigits(value);
    ghost var text := Digits(value, 16);
    var i := value;
    p := at;
    var more := true;
    while more
      invariant at <= p <= at + |text| <= buf.Length
      invariant text == buf[at..p] + if more then Digits(i, 16) else ""
      invariant buf[..at] == old(buf[..at]) && buf[p..] == old(buf[p..])
      decreases more, i
    {
      HexDigits(i);
      ghost var before, digit := buf[at..p], DIGITS_HEX[i % 16];
      var lsd := i % 16;
      i := i / 16;
      more := i != 0;
      assert text == before + [digit] + if more then Digits(i, 16) else "";
      PutNext(buf, at, p, DIGITS_HEX[lsd], old(buf[..]));
      p := p + 1;
    }
  }

  /** The canonical hexadecimal numeral of a pointer-sized value, and a NUL. */
  method ConvertHex(buf: array<char>, at: nat, value: nat) returns (len: nat)
    requires value < 0x1_0000_0000_0000_0000 && at + 17 <= buf.Length
    modifies buf
    ensures 0 < len <= 16 && buf[at..at + len] == Natural(value, 16) && buf[at + len] == '\0'
    ensures buf[..at] == old(buf[..at]) && buf[at + len + 1..] == old(buf[at + len + 1..])
  {
    hide *;
    HexFits(value);
    HexDigits(value);
    var p := PutHexDigits(buf, at, value);
    TailKept(old(buf[..]), buf[..], p, p + 1);
    Finish(buf, at, p);
    len := p - at;
  }

  // ---------- the buffer of a log line ----------

  const SMALL_BUFFER := 4000
  const MAX_NUMERIC_SIZE := 32

  /** A buffer that refuses what does not leave a byte free. */
  class FixedBuffer {
    const data: array<char>
    var cur: nat

    predicate Valid()
      reads this
    {
      cur < data.Length
    }

    function Contents(): string
      requires Valid()
      reads this, data
    {
      data[..cur]
    }

    function Avail(): (n: nat)
      requires Valid()
      reads this
      ensures n > 0
    {
      data.Length - cur
    }

    constructor (size: nat)
      requires size > 0
      ensures Valid() && fresh(data) && data.Length == size && Contents() == ""
    {
      data := new char[size](_ => '\0');
      cur := 0;
    }

    method Append(s: string)
      requires Valid()
      modifies this, data
      ensures Valid() && Contents() == Appended(old(Contents()), s, data.Length)
    {
      if Avail() > |s| {
        forall k | 0 <= k < |s| {
          data[cur + k] := s[k];
        }
        assert data[..cur + |s|] == old(data[..cur]) + s;
        cur := cur + |s|;
      }
    }

    /** What was written directly after the contents becomes part of them. */
    method Add(len: nat)
      requires Valid() && len < Avail()
      modifies this
      ensures Valid() && Contents() == old(Contents()) + old(data[cur..cur + len])
    {
      cur := cur + len;
    }

    method Reset()
      requires Valid()
      modifies this
      ensures Valid() && Contents() == ""
    {
      cur := 0;
    }
  }

  function Appended(line: string, s: string, size: nat): string {
    if size - |line| > |s| then line + s else line
  }

  // ---------- the stream ----------

  /** What can be put into a log line. */
  datatype Piece = Text(text: string) | Integer(value: int) | Pointer(address: nat)

  predicate IsPiece(p: Piece) {
    match p
    case Text(_) => true
    case Integer(v) => Is64Bit(v)
    case Pointer(a) => a < 0x1_0000_0000_0000_0000
  }

  function Rendered(p: Piece): string {
    match p
    case Text(s) => s
    case Integer(v) => Decimal(v)
    case Pointer(a) => "0x" + Natural(a, 16)
  }

  /** Text needs its own length and one byte more, a number always 32 bytes. */
  function Room(p: Piece): nat { if p.Text? then |p.text| + 1 else MAX_NUMERIC_SIZE }

  function Put(line: string, p: Piece): string {
    if SMALL_BUFFER - |line| >= Room(p) then line + Rendered(p) else line
  }

  function PutAll(line: string, ps: seq<Piece>): string
    decreases |ps|
  {
    if ps == [] then line else PutAll(Put(line, ps[0]), ps[1..])
  }

  function RenderedAll(ps: seq<Piece>): string {
    if ps == [] then "" else Rendered(ps[0]) + RenderedAll(ps[1..])
  }

  /** What a piece shows: the text itself, a canonical decimal of the integer, or the hexadecimal address. */
  lemma RenderedMeans(p: Piece)
    ensures
      var r := Rendered(p);
      match p
      case Text(s) => r == s
      case Integer(v) => IsDecimal(r) && DecimalValue(r) == v
      case Pointer(a) => |r| > 2 && r[..2] == "0x" && IsNatural(r[2..], 16) && Value(r[2..], 16) == a
  {
    hide Natural, Value, IsNatural, IsDecimal, DecimalValue, Decimal;
    match p
    case Text(_) =>
    case Integer(v) => DecimalReadsBack(v);
    case Pointer(a) => NaturalIs(a, 16); NotEmpty(a);
  }

  lemma NotEmpty(a: nat)
    ensures |Natural(a, 16)| > 0
  {
  }

  /** A piece is taken whole if it leaves one of the 4000 bytes free, a number if 32 bytes are left, and otherwise not
      at all. */
  lemma PutIff(line: string, p: Piece)
    requires |line| < 4000
    ensures Put(line, p) ==
      if (if p.Text? then |line| + |p.text| < 4000 else |line| + 32 <= 4000) then line + Rendered(p) else line
  {
  }

  predicate ArePieces(ps: seq<Piece>) { forall p <- ps :: IsPiece(p) }

  lemma PieceFits(p: Piece)
    requires IsPiece(p)
    ensures |Rendered(p)| < Room(p)
  {
    match p
    case Text(_) =>
    case Integer(v) => DecimalFits(v);
    case Pointer(a) => HexFits(a);
  }

  /** Whatever is put into a line, a byte stays free. */
  lemma {:induction false} ByteStaysFree(line: string, ps: seq<Piece>)
    requires ArePieces(ps) && |line| < SMALL_BUFFER
    ensures |PutAll(line, ps)| < SMALL_BUFFER
    decreases |ps|
  {
    if ps != [] {
      PieceFits(ps[0]);
      ByteStaysFree(Put(line, ps[0]), ps[1..]);
    }
  }

  /** A line is all of its pieces, in order, when together they leave room for one number. */
  lemma {:induction false} ShortLinesComplete(line: string, ps: seq<Piece>)
    requires ArePieces(ps) && |line| + |RenderedAll(ps)| + MAX_NUMERIC_SIZE <= SMALL_BUFFER
    ensures PutAll(line, ps) == line + RenderedAll(ps)
    decreases |ps|
  {
    if ps != [] {
      PieceFits(ps[0]);
      assert (line + Rendered(ps[0])) + RenderedAll(ps[1..]) == line + RenderedAll(ps);
      ShortLinesComplete(line + Rendered(ps[0]), ps[1..]);
    }
  }

  class Stream {
    const buffer: FixedBuffer

    predicate Valid()
      reads this, buffer
    {
      buffer.Valid() && buffer.data.Length == SMALL_BUFFER
    }

    function Line(): (s: string)
      requires Valid()
      reads this, buffer, buffer.data
      ensures |s| < SMALL_BUFFER
    {
      buffer.Contents()
    }

    constructor ()
      ensures Valid() && fresh(buffer) && fresh(buffer.data) && Line() == ""
    {
      buffer := new FixedBuffer(SMALL_BUFFER);
    }

    method WriteText(s: string)
      requires Valid()
      modifies buffer, buffer.data
      ensures Valid() && Line() == Put(old(Line()), Text(s))
    {
      buffer.Append(s);
    }

    method WriteBool(v: bool)
      requires Valid()
      modifies buffer, buffer.data
      ensures Valid() && Line() == Put(old(Line()), Text(if v then "1" else "0"))
    {
      buffer.Append(if v then "1" else "0");
    }

    /** formatInteger, behind all the integer operators. */
    method WriteInteger(v: int)
      requires Valid() && Is64Bit(v)
      modifies buffer, buffer.data
      ensures Valid() && Line() == Put(old(Line()), Integer(v))
    {
      hide Is64Bit, Decimal;
      if buffer.Avail() >= MAX_NUMERIC_SIZE {
        var len := Convert(buffer.data, buffer.cur, v);
        buffer.Add(len);
      }
    }

    method WritePointer(v: nat)
      requires Valid() && v < 0x1_0000_0000_0000_0000
      modifies buffer, buffer.data
      ensures Valid() && Line() == Put(old(Line()), Pointer(v))
    {
      hide Natural;
      if buffer.Avail() >= MAX_NUMERIC_SIZE {
        var cur := buffer.cur;
        buffer.data[cur] := '0';
        buffer.data[cur + 1] := 'x';
        ghost var front := buffer.data[..cur + 2];
        assert front == old(Line()) + "0x";
        var len := ConvertHex(buffer.data, cur + 2, v);
        Tail(buffer.data[..cur + 2 + len], front, Natural(v, 16), cur);
        buffer.Add(len + 2);
      }
    }
  }

  lemma Tail(now: string, front: string, text: string, cur: nat)
    requires cur <= |front| <= |now| && now[..|front|] == front && now[|front|..] == text
    ensures now[cur..] == front[cur..] + text
  {
    assert now == front + text;
  }
}
