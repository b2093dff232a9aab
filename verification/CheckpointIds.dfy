/** Checkpoint ids (UUIDv6, section 5.6 of RFC 9562) and channel versions, whose
    string order must be their order of creation. */
module CheckpointIds {
  import opened Text
  import opened Numerals
  import opened Ordering
  import opened Checkpoint

  // ---------------------------------------------------------------- fixed-width numerals

  /** The last `width` digits of `n`, most significant first. */
  function Numeral(n: nat, width: nat, base: nat): (s: string)
    requires base == 10 || base == 16
    ensures |s| == width
  {
    if width == 0 then "" else Numeral(n / base, width - 1, base) + [DigitChar(n % base)]
  }

  function Power(base: nat, e: nat): nat {
    if e == 0 then 1 else base * Power(base, e - 1)
  }

  lemma {:induction false} LessWithSuffix(a: string, b: string, s: string, t: string)
    requires |a| == |b| && StringLess(a, b)
    ensures StringLess(a + s, b + t)
  {
    assert (a + s)[0] == a[0] && (b + t)[0] == b[0];
    if a[0] == b[0] {
      LessWithSuffix(a[1..], b[1..], s, t);
      assert (a + s)[1..] == a[1..] + s && (b + t)[1..] == b[1..] + t;
    }
  }

  lemma DivideOrder(a: nat, b: nat, base: nat)
    requires (base == 10 || base == 16) && a < b
    ensures a / base < b / base || (a / base == b / base && a % base < b % base)
  {
    if base == 10 {
      assert a / 10 <= b / 10;
    } else {
      assert a / 16 <= b / 16;
    }
  }

  lemma DivideBound(a: nat, e: nat, base: nat)
    requires (base == 10 || base == 16) && e > 0 && a < Power(base, e)
    ensures a / base < Power(base, e - 1)
  {
    var p := Power(base, e - 1);
    if base == 10 {
      assert a < 10 * p;
    } else {
      assert a < 16 * p;
    }
  }

  /** At one width, string order is numeric order. */
  lemma {:induction false} NumeralOrder(a: nat, b: nat, width: nat, base: nat)
    requires (base == 10 || base == 16) && a < b < Power(base, width)
    ensures StringLess(Numeral(a, width, base), Numeral(b, width, base))
  {
    if width > 0 {
      DivideOrder(a, b, base);
      DivideBound(b, width, base);
      var x, y := Numeral(a / base, width - 1, base), Numeral(b / base, width - 1, base);
      if a / base < b / base {
        NumeralOrder(a / base, b / base, width - 1, base);
        LessWithSuffix(x, y, [DigitChar(a % base)], [DigitChar(b % base)]);
      } else {
        var s, t := x + [DigitChar(a % base)], y + [DigitChar(b % base)];
        assert s[..width - 1] == x && t[..width - 1] == y;
        StringLessAt(s, t, width - 1);
      }
    }
  }

  // ---------------------------------------------------------------- ids

  const TWO12: nat := 0x1000
  const TWO16: nat := 0x1_0000
  const TWO28: nat := 0x1000_0000
  const TWO32: nat := 0x1_0000_0000
  const TWO48: nat := 0x1_0000_0000_0000
  const TWO60: nat := 0x1000_0000_0000_0000

  /** The shifted and truncated timestamp fields of a UUIDv6. */
  function TimeHigh(now: nat): nat { (now / TWO28) % TWO32 }
  function TimeMid(now: nat): nat { (now / TWO12) % TWO16 }
  function TimeLow(now: nat): nat { now % TWO12 + 0x6000 }
  function ClockSequence(step: int): nat { step % 0x4000 + 0x8000 }

  /** Three leading groups and whatever follows them. */
  function Join(high: string, mid: string, low: string, tail: string): string {
    high + ("-" + (mid + ("-" + (low + tail))))
  }

  function FormatId(now: nat, step: int, random: nat): string {
    Join(Numeral(TimeHigh(now), 8, 16), Numeral(TimeMid(now), 4, 16), Numeral(TimeLow(now), 4, 16),
         "-" + Numeral(ClockSequence(step), 4, 16) + "-" + Numeral(random, 12, 16))
  }

  function HexDigit(c: char): nat {
    if '0' <= c <= '9' then (c - '0') as nat else if 'a' <= c <= 'f' then (c - 'a') as nat + 10 else 0
  }

  function HexValue(s: string): nat {
    if s == "" then 0 else HexValue(s[..|s| - 1]) * 16 + HexDigit(s[|s| - 1])
  }

  lemma DigitOfHex(d: nat)
    requires d < 16
    ensures HexDigit(DigitChar(d)) == d
  {
  }

  lemma {:induction false} HexOfNumeral(n: nat, width: nat)
    requires n < Power(16, width)
    ensures HexValue(Numeral(n, width, 16)) == n
    decreases width
  {
    if width > 0 {
      var s := Numeral(n, width, 16);
      DivideBound(n, width, 16);
      HexOfNumeral(n / 16, width - 1);
      assert s[..|s| - 1] == Numeral(n / 16, width - 1, 16);
      DigitOfHex(n % 16);
    }
  }

  /** The layout: the five groups of a UUID of version 6, from which the timestamp,
      the step in the clock sequence and the random part can be read back. */
  lemma FormatIdMeans(now: nat, step: int, random: nat)
    requires now < TWO60 && random < TWO48
    ensures var id := FormatId(now, step, random);
            && |id| == 36 && id[8] == id[13] == id[18] == id[23] == '-'
            && 0x6000 <= HexValue(id[14..18]) < 0x7000
            && now == HexValue(id[..8]) * TWO28 + HexValue(id[9..13]) * TWO12 + (HexValue(id[14..18]) - 0x6000)
            && HexValue(id[19..23]) == 0x8000 + step % 0x4000 && HexValue(id[24..]) == random
  {
    TimeFields(now);
    Powers();
    HexOfNumeral(TimeHigh(now), 8);
    HexOfNumeral(TimeMid(now), 4);
    HexOfNumeral(TimeLow(now), 4);
    HexOfNumeral(ClockSequence(step), 4);
    HexOfNumeral(random, 12);
    GroupsOf(Numeral(TimeHigh(now), 8, 16), Numeral(TimeMid(now), 4, 16), Numeral(TimeLow(now), 4, 16),
             Numeral(ClockSequence(step), 4, 16), Numeral(random, 12, 16));
  }

  lemma GroupsOf(a: string, b: string, c: string, d: string, e: string)
    requires |a| == 8 && |b| == |c| == |d| == 4 && |e| == 12
    ensures var id := Join(a, b, c, "-" + d + "-" + e);
            && |id| == 36 && id[8] == id[13] == id[18] == id[23] == '-'
            && id[..8] == a && id[9..13] == b && id[14..18] == c && id[19..23] == d && id[24..] == e
  {
  }

  lemma JoinOrder(h: string, m: string, l: string, t: string, h': string, m': string, l': string, t': string)
    requires |h| == |h'| && |m| == |m'| && |l| == |l'|
    requires StringLess(h, h') || (h == h' && StringLess(m, m')) || (h == h' && m == m' && StringLess(l, l'))
    ensures StringLess(Join(h, m, l, t), Join(h', m', l', t'))
  {
    if StringLess(h, h') {
      LessWithSuffix(h, h', "-" + (m + ("-" + (l + t))), "-" + (m' + ("-" + (l' + t'))));
    } else {
      if StringLess(m, m') {
        LessWithSuffix(m, m', "-" + (l + t), "-" + (l' + t'));
      } else {
        LessWithSuffix(l, l', t, t');
        LessBehindPrefix("-", l + t, l' + t');
        LessBehindPrefix(m, "-" + (l + t), "-" + (l' + t'));
      }
      LessBehindPrefix("-", m + ("-" + (l + t)), m' + ("-" + (l' + t')));
      LessBehindPrefix(h, "-" + (m + ("-" + (l + t))), "-" + (m' + ("-" + (l' + t'))));
    }
  }

  lemma TimeFieldsOrder(a: nat, b: nat)
    requires a < b < TWO60
    ensures
      || TimeHigh(a) < TimeHigh(b)
      || (TimeHigh(a) == TimeHigh(b) && TimeMid(a) < TimeMid(b))
      || (TimeHigh(a) == TimeHigh(b) && TimeMid(a) == TimeMid(b) && TimeLow(a) < TimeLow(b))
  {
    TimeFields(a);
    TimeFields(b);
  }

  lemma TimeFields(now: nat)
    requires now < TWO60
    ensures now == TimeHigh(now) * TWO28 + TimeMid(now) * TWO12 + (TimeLow(now) - 0x6000)
    ensures TimeHigh(now) < TWO32 && TimeMid(now) < TWO16 && 0x6000 <= TimeLow(now) < 0x7000
  {
    assert now / TWO28 < TWO32;
    var q := now / TWO12;
    assert now == q * TWO12 + now % TWO12;
    assert q / TWO16 == now / TWO28;
  }

  lemma Powers()
    ensures Power(16, 4) == TWO16 && Power(16, 8) == TWO32 && Power(16, 12) == TWO48
  {
    assert Power(16, 2) == 256;
    assert Power(16, 4) == 65536;
    assert Power(16, 6) == 0x100_0000;
    assert Power(16, 8) == TWO32;
    assert Power(16, 10) == 0x100_0000_0000;
    assert Power(16, 12) == TWO48;
  }

  /** A later timestamp gives a larger id, whatever the step and the random part. */
  lemma LaterIdIsLarger(a: nat, stepA: int, randomA: nat, b: nat, stepB: int, randomB: nat)
    requires a < b < TWO60
    ensures StringLess(FormatId(a, stepA, randomA), FormatId(b, stepB, randomB))
  {
    TimeFieldsOrder(a, b);
    TimeFields(a);
    TimeFields(b);
    Powers();
    if TimeHigh(a) < TimeHigh(b) {
      NumeralOrder(TimeHigh(a), TimeHigh(b), 8, 16);
    } else if TimeMid(a) < TimeMid(b) {
      NumeralOrder(TimeMid(a), TimeMid(b), 4, 16);
    } else {
      NumeralOrder(TimeLow(a), TimeLow(b), 4, 16);
    }
    JoinOrder(
      Numeral(TimeHigh(a), 8, 16), Numeral(TimeMid(a), 4, 16), Numeral(TimeLow(a), 4, 16),
      "-" + Numeral(ClockSequence(stepA), 4, 16) + "-" + Numeral(randomA, 12, 16),
      Numeral(TimeHigh(b), 8, 16), Numeral(TimeMid(b), 4, 16), Numeral(TimeLow(b), 4, 16),
      "-" + Numeral(ClockSequence(stepB), 4, 16) + "-" + Numeral(randomB, 12, 16));
  }

  lemma {:induction false} LessBehindPrefix(p: string, a: string, b: string)
    requires StringLess(a, b)
    ensures StringLess(p + a, p + b)
  {
    if p == "" {
      assert p + a == a && p + b == b;
    } else {
      LessBehindPrefix(p[1..], a, b);
      assert (p + a)[1..] == p[1..] + a && (p + b)[1..] == p[1..] + b;
    }
  }

  /** The process-wide clock: a stalled or backward wall clock still moves on by one tick. */
  class IdClock {
    var last: nat

    constructor ()
      ensures last == 0
    {
      last := 0;
    }

    method NewId(wall: nat, step: int, random: nat) returns (id: string)
      modifies this
      ensures last == (if wall <= old(last) then old(last) + 1 else wall) && last > old(last)
      ensures id == FormatId(last, step, random)
    {
      var now := wall;
      if now <= last {
        now := last + 1;
      }
      last := now;
      id := FormatId(now, step, random);
    }
  }

  /** Two successive calls return increasing ids as long as the clock stays below 2^60. */
  method TwoIds(clock: IdClock, wallA: nat, stepA: int, randomA: nat, wallB: nat, stepB: int, randomB: nat)
    returns (first: string, second: string)
    modifies clock
    ensures clock.last < TWO60 ==> StringLess(first, second)
  {
    first := clock.NewId(wallA, stepA, randomA);
    ghost var a := clock.last;
    second := clock.NewId(wallB, stepB, randomB);
    if clock.last < TWO60 {
      LaterIdIsLarger(a, stepA, randomA, clock.last, stepB, randomB);
    }
  }

  // ---------------------------------------------------------------- channel versions

  function DecimalOf(n: int): string {
    if n < 0 then "-" + Decimal(-n) else Decimal(n)
  }

  function Zeros(k: nat): string {
    seq(k, _ => '0')
  }

  function PadLeft(s: string, width: nat): string {
    if |s| < width then Zeros(width - |s|) + s else s
  }

  predicate IsDigit(c: char) {
    '0' <= c <= '9'
  }

  /** The value of a non-empty run of digits. */
  function DigitsValue(s: string): Option<nat> {
    if s == "" || !IsDigit(s[|s| - 1]) then None
    else
      var d := (s[|s| - 1] - '0') as nat;
      if |s| == 1 then Some(d)
      else
        var front := DigitsValue(s[..|s| - 1]);
        if front == None then None else Some(front.value * 10 + d)
  }

  /** big.Int.SetString in base ten: an optional sign and at least one digit. */
  function ParseInteger(s: string): Option<int> {
    if s != "" && s[0] == '-' then
      var v := DigitsValue(s[1..]);
      if v == None then None else
        var negated: int := 0 - v.value;
        Some(negated)
    else
      var v := DigitsValue(if s != "" && s[0] == '+' then s[1..] else s);
      if v == None then None else Some(v.value)
  }

  function BeforeDot(s: string): string {
    if s == "" || s[0] == '.' then "" else [s[0]] + BeforeDot(s[1..])
  }

  /** `fraction` is the formatted random part. */
  function NextVersion(current: string, fraction: string): Option<string> {
    var parsed := if current == "" then Some(0) else ParseInteger(BeforeDot(current));
    if parsed == None then None
    else Some(PadLeft(DecimalOf(parsed.value + 1), 32) + "." + PadLeft(fraction, 16))
  }

  /** The version with counter `n`. */
  function Version(n: nat, fraction: string): string {
    PadLeft(Decimal(n), 32) + "." + fraction
  }

  lemma {:induction false} DecimalIsNumeral(n: nat, width: nat)
    requires width >= |Decimal(n)|
    ensures Zeros(width - |Decimal(n)|) + Decimal(n) == Numeral(n, width, 10)
    ensures n < Power(10, width)
  {
    if n >= 10 {
      DecimalIsNumeral(n / 10, width - 1);
      assert Zeros(width - |Decimal(n)|) + Decimal(n) ==
        (Zeros(width - 1 - |Decimal(n / 10)|) + Decimal(n / 10)) + [DigitChar(n % 10)];
    } else {
      ZeroNumeral(width - 1);
      assert Zeros(width - 1) + [DigitChar(n)] == Numeral(n, width, 10);
    }
  }

  lemma {:induction false} ZeroNumeral(width: nat)
    ensures Numeral(0, width, 10) == Zeros(width) && Power(10, width) >= 1
  {
    if width > 0 {
      ZeroNumeral(width - 1);
      assert Zeros(width) == Zeros(width - 1) + ['0'];
    }
  }

  /** A decimal form has `k` digits exactly between consecutive powers of ten. */
  lemma {:induction false} DecimalLength(n: nat, k: nat)
    requires k > 0
    ensures |Decimal(n)| <= k <==> n < Power(10, k)
  {
    ZeroNumeral(k);
    ZeroNumeral(k - 1);
    if n >= 10 {
      if k == 1 {
        assert Power(10, 1) == 10;
        assert |Decimal(n)| >= 2;
      } else {
        DecimalLength(n / 10, k - 1);
        var p := Power(10, k - 1);
        assert n / 10 < p <==> n < 10 * p;
      }
    } else {
      assert Power(10, k) >= 10;
    }
  }

  lemma {:induction false} NumeralValue(n: nat, width: nat)
    requires width > 0 && n < Power(10, width)
    ensures DigitsValue(Numeral(n, width, 10)) == Some(n)
  {
    var s := Numeral(n, width, 10);
    var d := (s[|s| - 1] - '0') as nat;
    assert d == n % 10 && IsDigit(s[|s| - 1]);
    if width == 1 {
      assert Power(10, 1) == 10;
    } else {
      DivideBound(n, width, 10);
      NumeralValue(n / 10, width - 1);
      assert s[..|s| - 1] == Numeral(n / 10, width - 1, 10);
    }
  }

  lemma {:induction false} NumeralDigits(n: nat, width: nat, i: nat)
    requires i < width
    ensures IsDigit(Numeral(n, width, 10)[i])
  {
    if i < width - 1 {
      NumeralDigits(n / 10, width - 1, i);
    }
  }

  lemma {:induction false} BeforeDotStops(digits: string, rest: string)
    requires '.' !in digits
    ensures BeforeDot(digits + "." + rest) == digits
  {
    if digits == "" {
      assert digits + "." + rest == "." + rest;
    } else {
      BeforeDotStops(digits[1..], rest);
      assert (digits + "." + rest)[1..] == digits[1..] + "." + rest;
    }
  }

  function Width(n: nat): nat {
    if |Decimal(n)| < 32 then 32 else |Decimal(n)|
  }

  lemma PaddedIsNumeral(n: nat)
    ensures PadLeft(Decimal(n), 32) == Numeral(n, Width(n), 10) && n < Power(10, Width(n))
  {
    DecimalIsNumeral(n, Width(n));
    assert Zeros(0) + Decimal(n) == Decimal(n);
  }

  /** The successor of a version counts one further, whatever both random parts are. */
  lemma NextVersionCounts(n: nat, fraction: string, next: string)
    ensures NextVersion(Version(n, fraction), next) == Some(Version(n + 1, PadLeft(next, 16)))
    ensures NextVersion("", next) == Some(Version(1, PadLeft(next, 16)))
  {
    PaddedIsNumeral(n);
    var digits := Numeral(n, Width(n), 10);
    forall i | 0 <= i < |digits|
      ensures IsDigit(digits[i])
    {
      NumeralDigits(n, Width(n), i);
    }
    BeforeDotStops(digits, fraction);
    NumeralValue(n, Width(n));
    assert IsDigit(digits[0]);
    assert ParseInteger(digits) == Some(n);
  }

  lemma DecimalDigits(n: nat)
    ensures DigitsValue(Decimal(n)) == Some(n) && '.' !in Decimal(n) && '-' !in Decimal(n)
  {
    var width := |Decimal(n)|;
    DecimalIsNumeral(n, width);
    assert Zeros(0) + Decimal(n) == Decimal(n);
    NumeralValue(n, width);
    forall i | 0 <= i < width
      ensures IsDigit(Decimal(n)[i])
    {
      NumeralDigits(n, width, i);
    }
  }

  /** A version with a negative counter, zeros in front of its sign. */
  function NegativeVersion(n: nat, fraction: string): string {
    PadLeft("-" + Decimal(n), 32) + "." + fraction
  }

  /** A negative counter counts up, too. */
  lemma NegativeCounts(n: nat, fraction: string, next: string)
    requires n > 0
    ensures NextVersion("-" + Decimal(n) + "." + fraction, next) ==
            Some(if n == 1 then Version(0, PadLeft(next, 16)) else NegativeVersion(n - 1, PadLeft(next, 16)))
  {
    var prefix := "-" + Decimal(n);
    DecimalDigits(n);
    BeforeDotStops(prefix, fraction);
    assert prefix[1..] == Decimal(n);
  }

  lemma {:induction false} NoDigitNoValue(s: string, i: nat)
    requires i < |s| && !IsDigit(s[i])
    ensures DigitsValue(s) == None
    decreases |s|
  {
    if i < |s| - 1 {
      NoDigitNoValue(s[..|s| - 1], i);
    }
  }

  /** It does so once: the padding in front of the sign cannot be read back. */
  lemma NegativeVersionStops(n: nat, fraction: string, next: string)
    ensures NextVersion(NegativeVersion(n, fraction), next) == None <==> |Decimal(n)| < 31
  {
    var s := "-" + Decimal(n);
    var prefix := PadLeft(s, 32);
    DecimalDigits(n);
    assert prefix != "" && '.' !in prefix;
    BeforeDotStops(prefix, fraction);
    if |s| < 32 {
      var zeros := 32 - |s|;
      assert prefix[zeros] == '-' && prefix[0] == '0';
      NoDigitNoValue(prefix, zeros);
    } else {
      assert prefix[1..] == Decimal(n);
    }
  }

  /** A counter that would need a longer prefix than its predecessor's. */
  ghost predicate Rollover(n: nat) {
    exists k :: k >= 32 && n + 1 == Power(10, k)
  }

  lemma WidthGrows(n: nat)
    ensures Width(n + 1) == if n + 1 == Power(10, Width(n)) then Width(n) + 1 else Width(n)
  {
    var w := Width(n);
    ZeroNumeral(w);
    DecimalLength(n, w);
    DecimalLength(n + 1, w);
    DecimalLength(n + 1, w + 1);
    assert Power(10, w + 1) == 10 * Power(10, w);
    if w > 32 {
      DecimalLength(n, w - 1);
      DecimalLength(n + 1, w - 1);
    }
  }

  lemma RolloverWidth(n: nat)
    ensures Rollover(n) <==> n + 1 == Power(10, Width(n))
  {
    var w := Width(n);
    DecimalLength(n, w);
    if n + 1 == Power(10, w) {
      assert Rollover(n);
    }
    forall k: nat | k >= 32 && n + 1 == Power(10, k)
      ensures k == w
    {
      DecimalLength(n, k);
      if k > w {
        PowerGrows(w, k);
      }
    }
  }

  lemma {:induction false} PowerMonotone(a: nat, b: nat)
    requires a <= b
    ensures Power(10, a) <= Power(10, b)
    decreases b
  {
    ZeroNumeral(b);
    if a < b {
      PowerMonotone(a, b - 1);
      ZeroNumeral(b - 1);
    }
  }

  lemma PowerGrows(a: nat, b: nat)
    requires a < b
    ensures Power(10, b) >= 10 * Power(10, a)
  {
    PowerMonotone(a, b - 1);
  }

  /** Successive versions increase exactly when the counter does not roll over
      into a longer prefix, which first happens at 10^32 - 1. */
  lemma VersionsIncrease(n: nat, fraction: string, next: string)
    ensures StringLess(Version(n, fraction), Version(n + 1, next)) <==> !Rollover(n)
    ensures n + 1 < Power(10, 32) ==> !Rollover(n)
  {
    RolloverWidth(n);
    if Rollover(n) {
      RolloverDecreases(n, fraction, next);
      PowerMonotone(32, Width(n));
    } else {
      SameWidthIncreases(n, fraction, next);
    }
  }

  /** The version after prefix 10^32 - 1 sorts before it. */
  lemma LastPaddedVersionDecreases(fraction: string, next: string)
    ensures Power(10, 32) >= 1
    ensures !StringLess(Version(Power(10, 32) - 1, fraction), Version(Power(10, 32), next))
  {
    ZeroNumeral(32);
    var n: nat := Power(10, 32) - 1;
    assert Rollover(n);
    VersionsIncrease(n, fraction, next);
  }

  lemma SameWidthIncreases(n: nat, fraction: string, next: string)
    requires n + 1 != Power(10, Width(n))
    ensures StringLess(Version(n, fraction), Version(n + 1, next))
  {
    WidthGrows(n);
    PaddedIsNumeral(n);
    PaddedIsNumeral(n + 1);
    var a, b := Numeral(n, Width(n), 10), Numeral(n + 1, Width(n), 10);
    NumeralOrder(n, n + 1, Width(n), 10);
    LessWithSuffix(a, b, "." + fraction, "." + next);
    assert Version(n, fraction) == a + ("." + fraction) && Version(n + 1, next) == b + ("." + next);
  }

  lemma RolloverDecreases(n: nat, fraction: string, next: string)
    requires n + 1 == Power(10, Width(n))
    ensures !StringLess(Version(n, fraction), Version(n + 1, next))
  {
    WidthGrows(n);
    PaddedIsNumeral(n);
    PaddedIsNumeral(n + 1);
    RolloverDigits(Width(n));
    assert n == Power(10, Width(n)) - 1;
    assert Version(n, fraction)[0] == '9' && Version(n + 1, next)[0] == '1';
  }

  lemma {:induction false} RolloverDigits(w: nat)
    requires w > 0
    ensures Power(10, w) >= 1
    ensures Numeral(Power(10, w) - 1, w, 10)[0] == '9'
    ensures Numeral(Power(10, w), w + 1, 10)[0] == '1'
  {
    ZeroNumeral(w);
    ZeroNumeral(w - 1);
    var p := Power(10, w - 1);
    assert Power(10, w) == 10 * p;
    if w == 1 {
      assert p == 1;
      assert Numeral(9, 1, 10) == Numeral(0, 0, 10) + ['9'];
      assert Numeral(10, 2, 10) == Numeral(1, 1, 10) + ['0'];
      assert Numeral(1, 1, 10) == Numeral(0, 0, 10) + ['1'];
    } else {
      RolloverDigits(w - 1);
      assert (10 * p - 1) / 10 == p - 1;
      assert (10 * p) / 10 == p;
      assert Numeral(10 * p - 1, w, 10)[0] == Numeral(p - 1, w - 1, 10)[0];
      assert Numeral(10 * p, w + 1, 10)[0] == Numeral(p, w, 10)[0];
    }
  }
}
