/**
 * The display formatters of the video pages: the clock texts of
 * `formatDuration` (`src/pages/Watch.tsx`, `src/components/video/VideoCard.tsx`),
 * `formatTime` (`src/components/video/VideoPlayer.tsx`) and the inline
 * duration label of `src/pages/History.tsx`, and the branch choice of the
 * compact counts (`formatNumber`, `formatViews`). `ParseClock` reads a
 * clock text back and is the partner every clock formatter is checked
 * against.
 */
module Formatters {
  import opened Wrappers
  import opened Text

  // ---------------------------------------------------------------------
  // JavaScript arithmetic on integers
  // ---------------------------------------------------------------------

  /** `Math.floor(a / d)` for a positive divisor (Dafny's `/` floors there). */
  function FloorDiv(a: int, d: int): (q: int)
    requires d > 0
    ensures d * q <= a < d * q + d
  {
    a / d
  }

  /** JavaScript's `a % d`: the remainder takes the sign of `a`. */
  function JsRem(a: int, d: int): (r: int)
    requires d > 0
    ensures a >= 0 ==> 0 <= r < d && r == a % d
    ensures a < 0 ==> -d < r <= 0
  {
    if a >= 0 then a % d else -((-a) % d)
  }

  /** The JavaScript remainder is odd in its dividend: `(-a) % d == -(a % d)`. */
  lemma JsRemNegation(a: int, d: int)
    requires d > 0
    ensures JsRem(-a, d) == -JsRem(a, d)
  {
  }

  /** `n.toString().padStart(2, '0')` for any integer. */
  function Field(n: int): string {
    PadStart2(IntToString(n))
  }

  // ---------------------------------------------------------------------
  // Clock texts
  // ---------------------------------------------------------------------

  /**
   * The shared shape of both `formatDuration`s on whole seconds: under an
   * hour `M:SS`, else hours, `hourSep`, two-digit minutes, `:` and
   * two-digit seconds.
   */
  function ClockText(n: int, hourSep: string): string {
    var minutes := FloorDiv(n, 60);
    var secs := JsRem(n, 60);
    if minutes >= 60 then
      IntToString(FloorDiv(minutes, 60)) + hourSep + Field(JsRem(minutes, 60)) + ":" + Field(secs)
    else IntToString(minutes) + ":" + Field(secs)
  }

  /** `formatDuration` of the watch page, on whole seconds. */
  function WatchDuration(seconds: int): string {
    ClockText(seconds, ":")
  }

  /** `formatDuration` of the video card: floors first, and separates the hours with a `.`. */
  function CardDuration(seconds: real): string {
    ClockText(seconds.Floor, ".")
  }

  /** `formatTime` of the player, on whole seconds. */
  function PlayerTime(seconds: nat): string {
    var hours := seconds / 3600;
    var minutes := (seconds % 3600) / 60;
    var secs := seconds % 60;
    if hours > 0 then IntToString(hours) + ":" + Field(minutes) + ":" + Field(secs)
    else IntToString(minutes) + ":" + Field(secs)
  }

  /** The duration label of a history entry: whole minutes, `:`, two-digit seconds. */
  function HistoryDuration(seconds: int): string {
    IntToString(FloorDiv(seconds, 60)) + ":" + Field(JsRem(seconds, 60))
  }

  /** The value of a clock text `M:SS` or `H:MM:SS` whose fields are decimal digits. */
  function ParseClock(text: string): Option<nat> {
    ClockValue(Split(text, ':'))
  }

  /** A clock field: a non-empty run of decimal digits. */
  predicate IsField(s: string) {
    |s| > 0 && AllDigits(s)
  }

  /** The value of the fields of a clock text. */
  function ClockValue(parts: seq<string>): Option<nat> {
    if |parts| == 2 && IsField(parts[0]) && IsField(parts[1]) then
      Some(60 * ParseDecimal(parts[0]) + ParseDecimal(parts[1]))
    else if |parts| == 3 && IsField(parts[0]) && IsField(parts[1]) && IsField(parts[2]) then
      Some(3600 * ParseDecimal(parts[0]) + 60 * ParseDecimal(parts[1]) + ParseDecimal(parts[2]))
    else None
  }

  /** Digit strings hold no clock separator. */
  lemma DigitsLackColon(s: string)
    requires AllDigits(s)
    ensures ':' !in s
  {
  }

  /** The clock fields of a natural: the field texts are digits that read back as the fields. */
  lemma FieldRoundTrip(n: nat)
    ensures Field(n) == TwoDigits(n) && |Field(n)| > 0 && AllDigits(Field(n))
    ensures ParseDecimal(Field(n)) == n
  {
    TwoDigitsRoundTrip(n);
  }

  /** Two separator-free fields joined by `:` split back into the fields. */
  lemma SplitTwoFields(a: string, b: string)
    requires ':' !in a && ':' !in b
    ensures Split(a + ":" + b, ':') == [a, b]
  {
    assert a + ":" + b == a + [':'] + b;
    SplitAtSeparator(a, ':', b);
    SplitNoSeparator(b, ':');
  }

  /** Three separator-free fields joined by `:` split back into the fields. */
  lemma SplitThreeFields(a: string, b: string, c: string)
    requires ':' !in a && ':' !in b && ':' !in c
    ensures Split(a + ":" + b + ":" + c, ':') == [a, b, c]
  {
    assert a + ":" + b + ":" + c == a + [':'] + (b + ":" + c);
    SplitAtSeparator(a, ':', b + ":" + c);
    SplitTwoFields(b, c);
  }

  /** The text of a natural is a non-empty digit string that reads back as it. */
  lemma NaturalText(n: nat)
    ensures |IntToString(n)| > 0 && AllDigits(IntToString(n)) && ParseDecimal(IntToString(n)) == n
  {
    IntToStringRoundTrip(n);
  }

  /** `M:SS` reads back as `60 * M + SS`. */
  lemma ParseShortClock(m: nat, s: nat)
    ensures ParseClock(IntToString(m) + ":" + Field(s)) == Some(60 * m + s)
  {
    NaturalText(m);
    FieldRoundTrip(s);
    TwoFields(IntToString(m), Field(s), m, s);
  }

  /** Two digit fields with values `x` and `y`, joined by `:`, read back as `60 * x + y`. */
  lemma TwoFields(a: string, b: string, x: nat, y: nat)
    requires |a| > 0 && |b| > 0 && AllDigits(a) && AllDigits(b)
    requires ParseDecimal(a) == x && ParseDecimal(b) == y
    ensures ParseClock(a + ":" + b) == Some(60 * x + y)
  {
    DigitsLackColon(a);
    DigitsLackColon(b);
    SplitTwoFields(a, b);
    TwoFieldsValue(a, b);
  }

  /** The value of two digit fields. */
  lemma TwoFieldsValue(a: string, b: string)
    requires |a| > 0 && |b| > 0 && AllDigits(a) && AllDigits(b)
    ensures ClockValue([a, b]) == Some(60 * ParseDecimal(a) + ParseDecimal(b))
  {
    var parts := [a, b];
    assert parts[0] == a && parts[1] == b;
  }

  /** Three digit fields with values `x`, `y` and `z`, joined by `:`, read back as hours, minutes and seconds. */
  lemma ThreeFields(a: string, b: string, c: string, x: nat, y: nat, z: nat)
    requires |a| > 0 && |b| > 0 && |c| > 0 && AllDigits(a) && AllDigits(b) && AllDigits(c)
    requires ParseDecimal(a) == x && ParseDecimal(b) == y && ParseDecimal(c) == z
    ensures ParseClock(a + ":" + b + ":" + c) == Some(3600 * x + 60 * y + z)
  {
    DigitsLackColon(a);
    DigitsLackColon(b);
    DigitsLackColon(c);
    SplitThreeFields(a, b, c);
    ThreeFieldsValue(a, b, c);
  }

  /** The value of three digit fields. */
  lemma ThreeFieldsValue(a: string, b: string, c: string)
    requires |a| > 0 && |b| > 0 && |c| > 0 && AllDigits(a) && AllDigits(b) && AllDigits(c)
    ensures ClockValue([a, b, c]) == Some(3600 * ParseDecimal(a) + 60 * ParseDecimal(b) + ParseDecimal(c))
  {
    var parts := [a, b, c];
    assert parts[0] == a && parts[1] == b && parts[2] == c;
  }

  /** `H:MM:SS` reads back as `3600 * H + 60 * MM + SS`. */
  lemma ParseLongClock(h: nat, m: nat, s: nat)
    ensures ParseClock(IntToString(h) + ":" + Field(m) + ":" + Field(s)) == Some(3600 * h + 60 * m + s)
  {
    NaturalText(h);
    FieldRoundTrip(m);
    FieldRoundTrip(s);
    ThreeFields(IntToString(h), Field(m), Field(s), h, m, s);
  }

  /** The hours, minutes and seconds of a natural. */
  lemma ClockArithmetic(n: nat)
    ensures n / 60 / 60 == n / 3600
    ensures (n / 60) % 60 == (n % 3600) / 60
    ensures n == 3600 * (n / 3600) + 60 * ((n % 3600) / 60) + n % 60
    ensures n / 60 >= 60 <==> n >= 3600
  {
    var h, r := n / 3600, n % 3600;
    var m, s := r / 60, r % 60;
    assert n == 3600 * h + 60 * m + s;
    assert n / 60 == 60 * h + m;
    assert n % 60 == s;
  }

  /**
   * The watch page's duration of a natural reads back as that natural:
   * the minutes and seconds fields are below 60 and the text loses
   * nothing.
   */
  lemma WatchDurationRoundTrip(n: nat)
    ensures ParseClock(WatchDuration(n)) == Some(n)
  {
    if n >= 3600 {
      LongDurationRoundTrip(n);
    } else {
      ShortDurationRoundTrip(n);
    }
  }

  /** From an hour on, the watch page's duration is `H:MM:SS` and reads back as the natural. */
  lemma LongDurationRoundTrip(n: nat)
    requires n >= 3600
    ensures ParseClock(WatchDuration(n)) == Some(n)
  {
    var h, m, s := n / 3600, (n % 3600) / 60, n % 60;
    var text := IntToString(h) + ":" + Field(m) + ":" + Field(s);
    assert WatchDuration(n) == text by {
      ClockArithmetic(n);
      assert FloorDiv(n, 60) == n / 60 && JsRem(n, 60) == s;
      assert FloorDiv(n / 60, 60) == h && JsRem(n / 60, 60) == m;
    }
    assert 3600 * h + 60 * m + s == n by {
      ClockArithmetic(n);
    }
    ParseLongClock(h, m, s);
  }

  /** Under an hour, the watch page's duration is `M:SS` and reads back as the natural. */
  lemma ShortDurationRoundTrip(n: nat)
    requires n < 3600
    ensures ParseClock(WatchDuration(n)) == Some(n)
  {
    var m, s := n / 60, n % 60;
    var text := IntToString(m) + ":" + Field(s);
    assert WatchDuration(n) == text by {
      assert FloorDiv(n, 60) == m && JsRem(n, 60) == s && m < 60;
    }
    ParseShortClock(m, s);
  }

  /** Different naturals have different watch-page durations. */
  lemma WatchDurationInjective(m: nat, n: nat)
    requires WatchDuration(m) == WatchDuration(n)
    ensures m == n
  {
    WatchDurationRoundTrip(m);
    WatchDurationRoundTrip(n);
  }

  /** The player's `formatTime` and the watch page's `formatDuration` agree on naturals. */
  lemma PlayerTimeIsWatchDuration(n: nat)
    ensures PlayerTime(n) == WatchDuration(n)
  {
    ClockArithmetic(n);
    var minutes := n / 60;
    assert FloorDiv(n, 60) == minutes && JsRem(n, 60) == n % 60;
    if n >= 3600 {
      assert FloorDiv(minutes, 60) == n / 3600;
      assert JsRem(minutes, 60) == (n % 3600) / 60;
    } else {
      assert n / 3600 == 0 && minutes == (n % 3600) / 60;
    }
  }

  /** The player's time reads back as the natural it shows. */
  lemma PlayerTimeRoundTrip(n: nat)
    ensures ParseClock(PlayerTime(n)) == Some(n)
  {
    PlayerTimeIsWatchDuration(n);
    WatchDurationRoundTrip(n);
  }

  /**
   * The card floors its input, then matches the watch page except for the
   * hour separator: the same text under an hour, and from an hour on the
   * text with `.` in place of the first `:`.
   */
  lemma CardDurationVersusWatch(x: real)
    ensures CardDuration(x) == CardDuration(x.Floor as real)
    ensures x.Floor < 3600 ==> CardDuration(x) == WatchDuration(x.Floor)
    ensures x.Floor >= 3600 ==>
      var n := x.Floor;
      CardDuration(x) == IntToString(n / 3600) + "." + Field((n % 3600) / 60) + ":" + Field(n % 60) &&
      WatchDuration(n) == IntToString(n / 3600) + ":" + Field((n % 3600) / 60) + ":" + Field(n % 60)
  {
    var n := x.Floor;
    assert (n as real).Floor == n;
    if n >= 0 {
      ClockArithmetic(n);
    }
  }

  /**
   * The history label agrees with the watch page under an hour; from an
   * hour on it has no hour field and reads back as the total minutes and
   * seconds.
   */
  lemma HistoryDurationVersusWatch(n: nat)
    ensures n < 3600 ==> HistoryDuration(n) == WatchDuration(n)
    ensures ParseClock(HistoryDuration(n)) == Some(n)
  {
    ParseShortClock(n / 60, n % 60);
  }

  /** On a natural, the seconds field of every clock is two digits below 60. */
  lemma SecondsFieldTwoDigits(n: nat)
    ensures |Field(JsRem(n, 60))| == 2 && ParseDecimal(Field(JsRem(n, 60))) < 60
  {
    FieldRoundTrip(n % 60);
  }

  // ---------------------------------------------------------------------
  // Compact counts
  // ---------------------------------------------------------------------

  /**
   * A compact count: the plain decimal text, or the count divided by a
   * power of a thousand, printed with one decimal place, and a suffix.
   */
  datatype Compact = Exact(text: string) | Scaled(count: int, divisor: nat, suffix: string)

  /** `formatNumber` / `formatViews`: millions from 1,000,000, thousands from 1,000, else plain. */
  function CompactCount(n: int): (c: Compact)
    ensures c.Scaled? ==> c.count == n
  {
    if n >= 1000000 then Scaled(n, 1000000, "M")
    else if n >= 1000 then Scaled(n, 1000, "K")
    else Exact(IntToString(n))
  }

  /**
   * The branch of a compact count: exact text exactly below a thousand,
   * which reads back as the count; thousands below a million; millions
   * from there on. The quotient shown is always at least one.
   */
  lemma CompactCountBranches(n: int)
    ensures CompactCount(n).Exact? <==> n < 1000
    ensures CompactCount(n) == Scaled(n, 1000, "K") <==> 1000 <= n < 1000000
    ensures CompactCount(n) == Scaled(n, 1000000, "M") <==> n >= 1000000
    ensures CompactCount(n).Scaled? ==> CompactCount(n).count >= CompactCount(n).divisor > 0
    ensures 0 <= n < 1000 ==> ParseDecimal(CompactCount(n).text) == n
  {
    IntToStringRoundTrip(n);
  }
}
