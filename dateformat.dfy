/** `convert_datetime_string`: a "YYYY-MM-DD HH:MM:SS" timestamp becomes the
    "YYYYMMDD" name of that date's fundamentals table. */
module DateFormat {

  predicate IsDigit(c: char)
  {
    '0' <= c <= '9'
  }

  predicate AllDigits(s: string)
  {
    forall i :: 0 <= i < |s| ==> IsDigit(s[i])
  }

  function Digit(n: nat): (c: char)
    requires n < 10
    ensures IsDigit(c)
  {
    ('0' as int + n) as char
  }

  /** The number a string of decimal digits denotes. */
  function Value(s: string): nat
    requires AllDigits(s)
  {
    if s == [] then 0 else 10 * Value(s[..|s| - 1]) + (s[|s| - 1] as int - '0' as int)
  }

  function Pow10(w: nat): nat
  {
    if w == 0 then 1 else 10 * Pow10(w - 1)
  }

  /** `n` written with exactly `w` digits, zero-padded on the left. */
  function Pad(n: nat, w: nat): (r: string)
    ensures |r| == w && AllDigits(r)
  {
    if w == 0 then [] else Pad(n / 10, w - 1) + [Digit(n % 10)]
  }

  /** Padding then reading back gives the number, when it fits in `w` digits. */
  lemma {:induction false} ValuePad(n: nat, w: nat)
    requires n < Pow10(w)
    ensures Value(Pad(n, w)) == n
  {
    if w > 0 {
      var p := Pad(n, w);
      assert p[..w - 1] == Pad(n / 10, w - 1);
      ValuePad(n / 10, w - 1);
    }
  }

  /** Reading a digit string then padding to its length gives it back. */
  lemma {:induction false} PadValue(s: string)
    requires AllDigits(s)
    ensures Pad(Value(s), |s|) == s
  {
    if s != [] {
      var init := s[..|s| - 1];
      var d := s[|s| - 1] as int - '0' as int;
      assert AllDigits(init);
      PadValue(init);
      assert (10 * Value(init) + d) / 10 == Value(init);
      assert (10 * Value(init) + d) % 10 == d;
      assert s == init + [s[|s| - 1]];
    }
  }

  datatype Timestamp = Timestamp(year: nat, month: nat, day: nat, hour: nat, minute: nat, second: nat)

  predicate LeapYear(y: nat)
  {
    y % 4 == 0 && (y % 100 != 0 || y % 400 == 0)
  }

  function DaysInMonth(y: nat, m: nat): nat
    requires 1 <= m <= 12
  {
    if m == 2 then (if LeapYear(y) then 29 else 28)
    else if m == 4 || m == 6 || m == 9 || m == 11 then 30
    else 31
  }

  /** The timestamps `datetime` accepts (four-digit years only). */
  predicate ValidTimestamp(t: Timestamp)
  {
    && 1000 <= t.year <= 9999
    && 1 <= t.month <= 12
    && 1 <= t.day <= DaysInMonth(t.year, t.month)
    && t.hour < 24 && t.minute < 60 && t.second < 60
  }

  /** The canonical text of a timestamp, "YYYY-MM-DD HH:MM:SS". */
  function Render(t: Timestamp): (s: string)
    ensures |s| == 19
  {
    Pad(t.year, 4) + "-" + Pad(t.month, 2) + "-" + Pad(t.day, 2) + " "
      + Pad(t.hour, 2) + ":" + Pad(t.minute, 2) + ":" + Pad(t.second, 2)
  }

  /** The layout of `'%Y-%m-%d %H:%M:%S'` with every field zero-padded. */
  predicate Shaped(s: string)
  {
    && |s| == 19
    && AllDigits(s[0..4]) && s[4] == '-' && AllDigits(s[5..7]) && s[7] == '-'
    && AllDigits(s[8..10]) && s[10] == ' ' && AllDigits(s[11..13]) && s[13] == ':'
    && AllDigits(s[14..16]) && s[16] == ':' && AllDigits(s[17..19])
  }

  /** The fields `strptime` reads. */
  function Fields(s: string): Timestamp
    requires Shaped(s)
  {
    Timestamp(Value(s[0..4]), Value(s[5..7]), Value(s[8..10]),
              Value(s[11..13]), Value(s[14..16]), Value(s[17..19]))
  }

  /** A string `strptime` parses with the format. */
  predicate WellFormed(s: string)
  {
    Shaped(s) && ValidTimestamp(Fields(s))
  }

  /** `strftime('%Y%m%d')` of a timestamp. */
  function DateKey(t: Timestamp): string
  {
    Pad(t.year, 4) + Pad(t.month, 2) + Pad(t.day, 2)
  }

  /** `convert_datetime_string`: parse then print the date part. */
  function ConvertDateTimeString(dateStr: string): (r: string)
    requires WellFormed(dateStr)
    ensures r == DateKey(Fields(dateStr))
    ensures |r| == 8 && AllDigits(r)
  {
    PadValue(dateStr[0..4]);
    PadValue(dateStr[5..7]);
    PadValue(dateStr[8..10]);
    dateStr[0..4] + dateStr[5..7] + dateStr[8..10]
  }

  /** The text of every valid timestamp is well formed, parses back to the same
      timestamp, and converts to its date key. */
  lemma ConvertRender(t: Timestamp)
    requires ValidTimestamp(t)
    ensures WellFormed(Render(t)) && Fields(Render(t)) == t
    ensures ConvertDateTimeString(Render(t)) == DateKey(t)
  {
    var s := Render(t);
    assert s[0..4] == Pad(t.year, 4);
    assert s[5..7] == Pad(t.month, 2);
    assert s[8..10] == Pad(t.day, 2);
    assert s[11..13] == Pad(t.hour, 2);
    assert s[14..16] == Pad(t.minute, 2);
    assert s[17..19] == Pad(t.second, 2);
    ValuePad(t.year, 4);
    ValuePad(t.month, 2);
    ValuePad(t.day, 2);
    ValuePad(t.hour, 2);
    ValuePad(t.minute, 2);
    ValuePad(t.second, 2);
  }

  /** Two valid timestamps get the same table name iff they fall on the same
      calendar date: the time of day is dropped and nothing else. */
  lemma DateKeyInjective(t1: Timestamp, t2: Timestamp)
    requires ValidTimestamp(t1) && ValidTimestamp(t2)
    ensures DateKey(t1) == DateKey(t2) <==> (t1.year == t2.year && t1.month == t2.month && t1.day == t2.day)
  {
    if DateKey(t1) == DateKey(t2) {
      var k1, k2 := DateKey(t1), DateKey(t2);
      assert k1[0..4] == Pad(t1.year, 4) && k2[0..4] == Pad(t2.year, 4);
      assert k1[4..6] == Pad(t1.month, 2) && k2[4..6] == Pad(t2.month, 2);
      assert k1[6..8] == Pad(t1.day, 2) && k2[6..8] == Pad(t2.day, 2);
      ValuePad(t1.year, 4); ValuePad(t2.year, 4);
      ValuePad(t1.month, 2); ValuePad(t2.month, 2);
      ValuePad(t1.day, 2); ValuePad(t2.day, 2);
    }
  }
}
