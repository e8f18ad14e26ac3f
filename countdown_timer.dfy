/** The countdown to the wedding: the time left, broken into days, hours,
    minutes and seconds, recomputed once a second from the difference
    between the wedding instant and the current time, and shown as four
    zero-padded cells.

    Instants are whole milliseconds. The source divides with floating point
    and takes the floor; for the non-negative differences it divides (all
    far below 2^53) that is the integer division used here. The clock and
    the interval timer are parameters: `Tick(now)` is one firing. */
module CountdownTimer {
  import opened Strings

  const MsPerSecond := 1000
  const MsPerMinute := 60 * MsPerSecond
  const MsPerHour := 60 * MsPerMinute
  const MsPerDay := 24 * MsPerHour

  datatype TimeLeft = TimeLeft(days: nat, hours: nat, minutes: nat, seconds: nat)

  /** The state before the first computation. */
  const Zero := TimeLeft(0, 0, 0, 0)

  /** Hours, minutes and seconds are what is left over from the larger unit;
      days are unbounded. */
  predicate InRange(t: TimeLeft) {
    t.hours < 24 && t.minutes < 60 && t.seconds < 60
  }

  /** The whole seconds a breakdown stands for. */
  function TotalSeconds(t: TimeLeft): nat {
    ((t.days * 24 + t.hours) * 60 + t.minutes) * 60 + t.seconds
  }

  /** `calculateTimeLeft`'s breakdown of a positive difference `d`, in
      milliseconds: `d` lies in the second the breakdown denotes. */
  function Breakdown(d: int): (t: TimeLeft)
    requires d > 0
    ensures InRange(t)
    ensures TotalSeconds(t) == d / MsPerSecond
    ensures TotalSeconds(t) * MsPerSecond <= d < TotalSeconds(t) * MsPerSecond + MsPerSecond
  {
    var t := TimeLeft(d / MsPerDay, (d / MsPerHour) % 24, (d / MsPerMinute) % 60, (d / MsPerSecond) % 60);
    BreakdownSeconds(d);
    t
  }

  /** Each unit's count is the next smaller unit's count divided by the
      number of those in it. */
  lemma UnitsNest(d: int)
    requires d > 0
    ensures d / MsPerMinute == d / MsPerSecond / 60
    ensures d / MsPerHour == d / MsPerMinute / 60
    ensures d / MsPerDay == d / MsPerHour / 24
  {
  }

  /** The four fields add up to the whole seconds in `d`. */
  lemma {:induction false} BreakdownSeconds(d: int)
    requires d > 0
    ensures var s := d / MsPerSecond;
      ((d / MsPerDay * 24 + (d / MsPerHour) % 24) * 60 + (d / MsPerMinute) % 60) * 60 + (d / MsPerSecond) % 60 == s
  {
    UnitsNest(d);
    var s := d / MsPerSecond;
    var m := d / MsPerMinute;
    var h := d / MsPerHour;
    assert s == m * 60 + s % 60;
    assert m == h * 60 + m % 60;
    assert h == (d / MsPerDay) * 24 + h % 24;
  }

  /** `(days, hours, minutes, seconds)` is lexicographically at most the
      other tuple. */
  predicate LexLe(a: TimeLeft, b: TimeLeft) {
    a.days < b.days ||
    (a.days == b.days && (a.hours < b.hours ||
    (a.hours == b.hours && (a.minutes < b.minutes ||
    (a.minutes == b.minutes && a.seconds <= b.seconds)))))
  }

  /** For breakdowns in range the lexicographic order is the order of the
      time they stand for. */
  lemma LexLeIsTimeOrder(a: TimeLeft, b: TimeLeft)
    requires InRange(a) && InRange(b)
    ensures LexLe(a, b) <==> TotalSeconds(a) <= TotalSeconds(b)
  {
    var ha, hb := a.days * 24 + a.hours, b.days * 24 + b.hours;
    var ma, mb := ha * 60 + a.minutes, hb * 60 + b.minutes;
    assert TotalSeconds(a) == ma * 60 + a.seconds && TotalSeconds(b) == mb * 60 + b.seconds;
    ScaledOrder(ma, mb, a.seconds, b.seconds, 60);
    ScaledOrder(ha, hb, a.minutes, b.minutes, 60);
    ScaledOrder(a.days, b.days, a.hours, b.hours, 24);
  }

  /** Mixed-radix comparison for one digit. */
  lemma ScaledOrder(x: nat, y: nat, u: nat, v: nat, base: nat)
    requires u < base && v < base
    ensures x * base + u <= y * base + v <==> x < y || (x == y && u <= v)
    ensures x * base + u == y * base + v <==> x == y && u == v
  {
    if x < y {
      assert x * base + u < (x + 1) * base <= y * base;
    } else if x > y {
      assert y * base + v < (y + 1) * base <= x * base;
    }
  }

  /** Less time left never shows a larger countdown. */
  lemma {:induction false} BreakdownMonotone(d1: int, d2: int)
    requires 0 < d1 <= d2
    ensures LexLe(Breakdown(d1), Breakdown(d2))
  {
    LexLeIsTimeOrder(Breakdown(d1), Breakdown(d2));
  }

  /** A breakdown is determined by the second it denotes: the fields are the
      unique in-range tuple for those seconds. */
  lemma {:induction false} BreakdownUnique(d: int, t: TimeLeft)
    requires d > 0 && InRange(t) && TotalSeconds(t) == d / MsPerSecond
    ensures t == Breakdown(d)
  {
    var b := Breakdown(d);
    LexLeIsTimeOrder(t, b);
    LexLeIsTimeOrder(b, t);
  }

  /** One day exactly. */
  lemma OneDay()
    ensures Breakdown(86400000) == TimeLeft(1, 0, 0, 0)
  {
  }

  /** One second short of an hour. */
  lemma AlmostAnHour()
    ensures Breakdown(3599000) == TimeLeft(0, 0, 59, 59)
  {
  }

  // ---------------------------------------------------------------------------
  // The component
  // ---------------------------------------------------------------------------

  /** The countdown's state: the instant it counts down to, the time left
      shown, and whether the one-second interval is registered. */
  class Countdown {
    const target: int
    var timeLeft: TimeLeft
    var running: bool

    predicate Valid()
      reads this
    {
      InRange(timeLeft)
    }

    /** The initial render: all zeros, no interval yet. */
    constructor (target: int)
      ensures this.target == target
      ensures timeLeft == Zero && !running
      ensures Valid()
    {
      this.target := target;
      timeLeft := Zero;
      running := false;
    }

    /** `calculateTimeLeft` at instant `now`: a new breakdown while the
        wedding is ahead, nothing once it has come (the last one stays).
        It only runs while the effect is active: after the cleanup no tick
        lands. */
    method Tick(now: int)
      requires Valid() && running
      modifies this
      ensures target - now > 0 ==> timeLeft == Breakdown(target - now)
      ensures target - now <= 0 ==> timeLeft == old(timeLeft)
      ensures running == old(running)
      ensures Valid()
    {
      var difference := target - now;
      if difference > 0 {
        timeLeft := Breakdown(difference);
      }
    }

    /** The effect on mount: register the interval and compute once straight
        away. The order does not matter, as the first firing comes a second
        later. */
    method Mount(now: int)
      requires Valid() && !running
      modifies this
      ensures target - now > 0 ==> timeLeft == Breakdown(target - now)
      ensures target - now <= 0 ==> timeLeft == old(timeLeft)
      ensures running
      ensures Valid()
    {
      running := true;
      Tick(now);
    }

    /** The effect's cleanup: clear the interval; the shown time stays. */
    method Unmount()
      modifies this
      ensures !running && timeLeft == old(timeLeft)
    {
      running := false;
    }
  }

  // ---------------------------------------------------------------------------
  // Display
  // ---------------------------------------------------------------------------

  /** One cell: its caption and its value as shown. */
  datatype Cell = Cell(caption: string, text: string)

  /** The four cells in order, each value as `String(v).padStart(2, "0")`. */
  function Cells(t: TimeLeft): (cells: seq<Cell>)
    ensures |cells| == 4
    ensures cells[0].caption == "Days" && cells[1].caption == "Hours"
    ensures cells[2].caption == "Minutes" && cells[3].caption == "Seconds"
    ensures |cells[0].text| >= 2 && |cells[1].text| >= 2 && |cells[2].text| >= 2 && |cells[3].text| >= 2
    ensures AllDigits(cells[0].text) && AllDigits(cells[1].text)
    ensures AllDigits(cells[2].text) && AllDigits(cells[3].text)
    ensures DigitsValue(cells[0].text) == t.days && DigitsValue(cells[1].text) == t.hours
    ensures DigitsValue(cells[2].text) == t.minutes && DigitsValue(cells[3].text) == t.seconds
    ensures cells[0].text == PadStart(NatToString(t.days), 2, '0')
    ensures cells[1].text == PadStart(NatToString(t.hours), 2, '0')
    ensures cells[2].text == PadStart(NatToString(t.minutes), 2, '0')
    ensures cells[3].text == PadStart(NatToString(t.seconds), 2, '0')
  {
    [Cell("Days", PadTwo(t.days)), Cell("Hours", PadTwo(t.hours)),
     Cell("Minutes", PadTwo(t.minutes)), Cell("Seconds", PadTwo(t.seconds))]
  }

  /** Values of two or more digits are shown as they are; one-digit values
      get a leading zero. */
  lemma CellPadding(n: nat)
    ensures n >= 10 ==> PadTwo(n) == NatToString(n)
    ensures n < 10 ==> PadTwo(n) == ['0'] + NatToString(n)
  {
  }

  /** In range, hours, minutes and seconds always take exactly two
      characters; only the days can take more. */
  lemma {:induction false} CellWidths(t: TimeLeft)
    requires InRange(t)
    ensures |Cells(t)[1].text| == 2 && |Cells(t)[2].text| == 2 && |Cells(t)[3].text| == 2
  {
    CellPadding(t.hours);
    CellPadding(t.minutes);
    CellPadding(t.seconds);
    TwoDigits(t.hours);
    TwoDigits(t.minutes);
    TwoDigits(t.seconds);
  }

  /** Numbers from 10 to 99 render in two digits. */
  lemma TwoDigits(n: nat)
    requires n < 100
    ensures n >= 10 ==> |NatToString(n)| == 2
  {
    if n >= 10 {
      assert NatToString(n) == NatToString(n / 10) + [DigitChar(n % 10)];
    }
  }
}
