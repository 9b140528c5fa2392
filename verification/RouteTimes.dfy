/** Times of day, and the timetable of a planned route. */
module RouteTimes {
  import opened Text

  const DAY: nat := 1440

  /** HH:mm on a 24-hour clock. */
  predicate ValidTime(s: string) {
    && |s| == 5 && s[2] == ':' && Digits(s[..2]) && Digits(s[3..])
    && Value(s[..2]) < 24 && Value(s[3..]) < 60
  }

  function Minutes(s: string): nat
    requires ValidTime(s)
  {
    Value(s[..2]) * 60 + Value(s[3..])
  }

  /** The nearest whole number, halves up. */
  function Round(x: real): int {
    (x + 0.5).Floor
  }

  function Ceil(x: real): int {
    -((-x).Floor)
  }

  /** The remainder of a division that truncates. */
  function Remainder(a: int, b: nat): int
    requires b > 0
  {
    if a >= 0 then a % b else -((-a) % b)
  }

  function Time(value: real): string {
    var normalized := Remainder(Remainder(Round(value), DAY) + DAY, DAY);
    RemainderIsModulo(Round(value));
    Pad(Decimal(normalized / 60), 2) + ":" + Pad(Decimal(normalized % 60), 2)
  }

  /** Taking the remainder twice gives the minute of the day, also before midnight. */
  lemma RemainderIsModulo(a: int)
    ensures Remainder(Remainder(a, DAY) + DAY, DAY) == a % DAY
  {
    if a < 0 {
      var q, r := (-a) / DAY, (-a) % DAY;
      assert a == -q * DAY - r;
    }
  }

  // ---- Round trip ---------------------------------------------------------------------

  lemma PaddedDigits(a: nat, b: nat)
    requires a < 10 && b < 10
    ensures Pad(Decimal(10 * a + b), 2) == [Digit(a), Digit(b)]
  {
    if a == 0 {
      assert Pad("0" + [Digit(b)], 2) == "0" + [Digit(b)];
    } else {
      assert Decimal(10 * a + b) == Decimal(a) + [Digit(b)];
    }
  }

  lemma ValueOfTwo(a: char, b: char)
    requires IsDigit(a) && IsDigit(b)
    ensures Value([a, b]) == 10 * (a as int - '0' as int) + (b as int - '0' as int)
  {
    var s, first := [a, b], [a];
    assert s[..1] == first && first[..0] == "" && s[1] == b && first[0] == a;
    assert IsDigit(s[0]) && IsDigit(s[1]);
    assert Value(first) == 10 * Value("") + (a as int - '0' as int);
  }

  lemma TwoDigits(s: string)
    requires |s| == 2 && Digits(s)
    ensures Value(s) < 100 && Pad(Decimal(Value(s)), 2) == s
  {
    assert IsDigit(s[0]) && IsDigit(s[1]);
    assert s == [s[0], s[1]];
    ValueOfTwo(s[0], s[1]);
    PaddedDigits(s[0] as int - '0' as int, s[1] as int - '0' as int);
  }

  /** Writing the minutes of a time of day gives the time back. */
  lemma TimeOfMinutes(s: string)
    requires ValidTime(s)
    ensures Time(Minutes(s) as real) == s
  {
    var h, m := Value(s[..2]), Value(s[3..]);
    var total := Minutes(s);
    assert Round(total as real) == total;
    assert Remainder(Remainder(total, DAY) + DAY, DAY) == total;
    assert total / 60 == h;
    TwoDigits(s[..2]);
    TwoDigits(s[3..]);
    assert s == s[..2] + ":" + s[3..];
  }

  lemma Padded(n: nat)
    requires n < 100
    ensures var s := Pad(Decimal(n), 2); |s| == 2 && Digits(s) && Value(s) == n
  {
    assert Power10(2) == 100;
    DigitCount(n, 2);
    ValueOfPad(Decimal(n), 2);
    ValueOfDecimal(n);
  }

  /** A written time is a time of day, and reads as the minute of the day. */
  lemma MinutesOfTime(value: real)
    ensures ValidTime(Time(value)) && Minutes(Time(value)) == Round(value) % DAY
  {
    RemainderIsModulo(Round(value));
    var n := Round(value) % DAY;
    Padded(n / 60);
    Padded(n % 60);
    var s := Time(value);
    assert s[..2] == Pad(Decimal(n / 60), 2) && s[3..] == Pad(Decimal(n % 60), 2);
  }

  // ---- The timetable ----------------------------------------------------------------------

  /** Minutes for the way out at 30 km/h, and three for every stop. */
  function Duration(kilometres: real, stops: nat): int {
    Ceil(kilometres / 30.0 * 60.0 + (stops * 3) as real)
  }

  function Departure(arrival: string, duration: int): int
    requires ValidTime(arrival)
  {
    Minutes(arrival) - duration
  }

  /** When stop `i` of `n` is served, in minutes of the arrival day. */
  function StopMinutes(departure: int, duration: int, i: nat, n: nat): real {
    departure as real + ((duration - 3) * (i + 1)) as real / (n + 1) as real
  }

  lemma DurationCoversStops(kilometres: real, stops: nat)
    requires kilometres >= 0.0
    ensures Duration(kilometres, stops) >= 3 * stops
  {
  }

  lemma ShareOf(total: int, i: nat, n: nat)
    requires total >= 0 && i < n
    ensures 0.0 <= (total * (i + 1)) as real / (n + 1) as real <= total as real
    ensures (total * (i + 1)) as real / (n + 1) as real <= (total * (i + 2)) as real / (n + 1) as real
  {
    assert 0 <= total * (i + 1) <= total * (n + 1);
    assert total * (i + 1) <= total * (i + 2);
    Quotient((total * (i + 1)) as real, total as real, (n + 1) as real);
    QuotientGrows((total * (i + 1)) as real, (total * (i + 2)) as real, (n + 1) as real);
  }

  lemma Quotient(a: real, t: real, d: real)
    requires 0.0 <= a <= t * d && d > 0.0
    ensures 0.0 <= a / d <= t
  {
  }

  lemma QuotientGrows(a: real, b: real, d: real)
    requires a <= b && d > 0.0
    ensures a / d <= b / d
  {
  }

  /** Stops are served in order, none before the departure or within three minutes of the arrival. */
  lemma StopsInTime(arrival: string, kilometres: real, i: nat, n: nat)
    requires ValidTime(arrival) && kilometres >= 0.0 && i < n
    ensures var duration := Duration(kilometres, n); var departure := Departure(arrival, duration);
            && departure as real <= StopMinutes(departure, duration, i, n) <= (Minutes(arrival) - 3) as real
            && departure <= Round(StopMinutes(departure, duration, i, n)) <= Minutes(arrival) - 3
            && (i + 1 < n ==> Round(StopMinutes(departure, duration, i, n)) <= Round(StopMinutes(departure, duration, i + 1, n)))
  {
    DurationCoversStops(kilometres, n);
    var duration := Duration(kilometres, n);
    ShareOf(duration - 3, i, n);
  }
}
