/** formatTime: a count of seconds shown as HH:MM:SS. Hours are split off
    with floor division by 3600, minutes from the rest with floor division by
    60, seconds are the floor of what remains; each field is printed with
    padStart(2, '0'), so hours of 100 or more keep all their digits. */
module TimeFormat {
  import opened Decimal

  datatype Option<T> = None | Some(value: T)

  /** The three fields formatTime prints. */
  datatype Clock = Clock(hours: int, minutes: int, seconds: int)

  /** The arithmetic of formatTime. The fields always add up to the floor of
      the input, and minutes and seconds stay below 60, whatever the sign. */
  function Split(time: real): (c: Clock)
    ensures c.hours * 3600 + c.minutes * 60 + c.seconds == time.Floor
    ensures 0 <= c.minutes < 60 && 0 <= c.seconds < 60
    ensures 0.0 <= time ==> 0 <= c.hours
  {
    var hours := (time / 3600.0).Floor;
    var minutes := ((time - hours as real * 3600.0) / 60.0).Floor;
    var seconds := (time - hours as real * 3600.0 - minutes as real * 60.0).Floor;
    FloorShift(time - hours as real * 3600.0 - minutes as real * 60.0, hours * 3600 + minutes * 60);
    Clock(hours, minutes, seconds)
  }

  /** Adding an integer commutes with taking the floor. */
  lemma FloorShift(x: real, k: int)
    ensures (x + k as real).Floor == x.Floor + k
  {
  }

  /** The split is the Euclidean quotient and remainders of the floored input. */
  lemma SplitIsDivMod(time: real)
    ensures var n := time.Floor;
      Split(time) == Clock(n / 3600, n % 3600 / 60, n % 60)
  {
    var n := time.Floor;
    var c := Split(time);
    DivModHour(n, c.hours, c.minutes * 60 + c.seconds);
    DivModMinute(c.minutes * 60 + c.seconds, c.minutes, c.seconds);
    DivModMinute(n, c.hours * 60 + c.minutes, c.seconds);
  }

  lemma DivModHour(n: int, q: int, r: int)
    requires 0 <= r < 3600 && n == q * 3600 + r
    ensures n / 3600 == q && n % 3600 == r
  {
  }

  lemma DivModMinute(n: int, q: int, r: int)
    requires 0 <= r < 60 && n == q * 60 + r
    ensures n / 60 == q && n % 60 == r
  {
  }

  /** One field: the integer's text, left-padded with '0' to two characters. */
  function Field(i: int): (s: string)
    ensures |s| >= 2
  {
    PadStart(IntToString(i), 2, '0')
  }

  /** The template string of formatTime: the three fields joined by colons. */
  function FormatClock(c: Clock): (s: string)
    ensures |s| >= 8
  {
    Field(c.hours) + ":" + Field(c.minutes) + ":" + Field(c.seconds)
  }

  /** formatTime(time). */
  function FormatTime(time: real): (s: string)
    ensures |s| >= 8
  {
    FormatClock(Split(time))
  }

  /** Reads an optional minus sign followed by one or more digits. */
  function ParseInt(s: string): (r: Option<int>)
    ensures r.Some? && |s| > 0 && s[0] != '-' ==> AllDigits(s) && r.value == Value(s)
    ensures r.Some? && |s| > 0 && s[0] == '-' ==> AllDigits(s[1..]) && r.value == -(Value(s[1..]) as int)
    ensures r.Some? ==> |s| > 0
  {
    if |s| >= 2 && s[0] == '-' && AllDigits(s[1..]) then Some(-(Value(s[1..]) as int))
    else if |s| >= 1 && AllDigits(s) then Some(Value(s))
    else None
  }

  /** Reads text of the shape H:MM:SS back into its fields, where H is the
      hours field of any length and MM, SS are exactly two digits. */
  function ParseClock(s: string): Option<Clock>
  {
    if |s| < 8 || s[|s| - 6] != ':' || s[|s| - 3] != ':' then None
    else ParseFields(s[..|s| - 6], s[|s| - 5..|s| - 3], s[|s| - 2..])
  }

  function ParseFields(h: string, mm: string, ss: string): Option<Clock>
  {
    if !AllDigits(mm) || !AllDigits(ss) then None
    else match ParseInt(h)
      case None => None
      case Some(hours) => Some(Clock(hours, Value(mm), Value(ss)))
  }

  /** The two-character field of a minute or second count. */
  lemma SmallField(i: int)
    requires 0 <= i < 60
    ensures |Field(i)| == 2 && AllDigits(Field(i)) && Value(Field(i)) == i
  {
    NonNegativeField(i);
    NumDigitsAtMostTwo(i);
  }

  /** A non-negative field is its digits padded with zeros to width two:
      it is never truncated and always reads back as the number. */
  lemma NonNegativeField(i: int)
    requires 0 <= i
    ensures |Field(i)| == if NumDigits(i) < 2 then 2 else NumDigits(i)
    ensures AllDigits(Field(i)) && Value(Field(i)) == i
  {
    var t := NatToString(i);
    var f := Field(i);
    var z := f[..|f| - |t|];
    assert f == z + t;
    LeadingZeros(z, t);
    ValueOfNatToString(i);
  }

  /** A negative hours field is "-" and the digits, never padded. */
  lemma NegativeField(i: int)
    requires i < 0
    ensures Field(i) == IntToString(i)
    ensures ParseInt(Field(i)) == Some(i)
  {
    ValueOfNatToString(-i);
  }

  lemma HoursFieldParses(i: int)
    ensures ParseInt(Field(i)) == Some(i)
  {
    if i < 0 {
      NegativeField(i);
    } else {
      NonNegativeField(i);
      var f := Field(i);
      assert f[0] != '-' by { assert IsDigit(f[0]); }
    }
  }

  /** Where the three fields sit in text joined by two colons. */
  lemma Joined(h: string, m: string, sec: string)
    requires |h| >= 2 && |m| == 2 && |sec| == 2
    ensures var s := h + ":" + m + ":" + sec;
      |s| == |h| + 6 && s[|h|] == ':' && s[|h| + 3] == ':'
      && s[..|h|] == h && s[|h| + 1..|h| + 3] == m && s[|h| + 4..] == sec
  {
  }

  /** Text joined from an hours field and two two-digit fields parses back. */
  lemma ParseJoined(h: string, m: string, sec: string, hours: int)
    requires |h| >= 2 && |m| == 2 && |sec| == 2 && AllDigits(m) && AllDigits(sec)
    requires ParseInt(h) == Some(hours)
    ensures ParseClock(h + ":" + m + ":" + sec) == Some(Clock(hours, Value(m), Value(sec)))
  {
    var s := h + ":" + m + ":" + sec;
    var tail := ":" + m + ":" + sec;
    assert s == h + tail;
    assert |tail| == 6 && tail[0] == ':' && tail[3] == ':';
    assert tail[1..3] == m && tail[4..] == sec;
    assert s[..|s| - 6] == h && s[|s| - 6..] == tail;
    assert s[|s| - 5..|s| - 3] == m && s[|s| - 2..] == sec;
    assert ParseClock(s) == ParseFields(h, m, sec);
  }

  /** The template reads back as the clock it was built from, for any hours
      and for minutes and seconds below 60. */
  lemma FormatClockRoundTrip(c: Clock)
    requires 0 <= c.minutes < 60 && 0 <= c.seconds < 60
    ensures ParseClock(FormatClock(c)) == Some(c)
  {
    SmallField(c.minutes);
    SmallField(c.seconds);
    HoursFieldParses(c.hours);
    ParseJoined(Field(c.hours), Field(c.minutes), Field(c.seconds), c.hours);
  }

  /** Round trip: the formatted text reads back as exactly the fields of the
      split, so it denotes the floor of the input and drops nothing. */
  lemma FormatTimeRoundTrip(time: real)
    ensures ParseClock(FormatTime(time)) == Some(Split(time))
  {
    FormatClockRoundTrip(Split(time));
  }

  /** The template for non-negative hours: a digits-only hours field of
      width max(2, digits(hours)), a colon, two digits, a colon, two digits. */
  lemma FormatClockShape(c: Clock)
    requires 0 <= c.hours && 0 <= c.minutes < 60 && 0 <= c.seconds < 60
    ensures var s := FormatClock(c);
      var width := if NumDigits(c.hours) < 2 then 2 else NumDigits(c.hours);
      |s| == width + 6
      && s[width] == ':' && s[width + 3] == ':'
      && AllDigits(s[..width]) && AllDigits(s[width + 1..width + 3]) && AllDigits(s[width + 4..])
  {
    NonNegativeField(c.hours);
    SmallField(c.minutes);
    SmallField(c.seconds);
    Joined(Field(c.hours), Field(c.minutes), Field(c.seconds));
  }

  /** formatTime of a non-negative input has that shape. */
  lemma FormatTimeShape(time: real)
    requires 0.0 <= time
    ensures var c := Split(time); var s := FormatTime(time);
      var width := if NumDigits(c.hours) < 2 then 2 else NumDigits(c.hours);
      |s| == width + 6
      && s[width] == ':' && s[width + 3] == ':'
      && AllDigits(s[..width]) && AllDigits(s[width + 1..width + 3]) && AllDigits(s[width + 4..])
  {
    FormatClockShape(Split(time));
  }

  /** Below 100 hours (0 <= time < 360000) the text is exactly HH:MM:SS. */
  lemma FormatTimeUnderHundredHours(time: real)
    requires 0.0 <= time < 360000.0
    ensures var s := FormatTime(time);
      |s| == 8 && s[2] == ':' && s[5] == ':'
      && AllDigits(s[..2]) && AllDigits(s[3..5]) && AllDigits(s[6..])
  {
    var c := Split(time);
    assert c.hours < 100;
    NumDigitsAtMostTwo(c.hours);
    FormatTimeShape(time);
  }
}
