/**
 * The pure string helpers of the monitor: Python's `str()` on integers,
 * the zero-padding helper `i2s_l`, the elapsed-time formatter `sec_to_str`
 * and the timestamp layout of `get_strftime`.  Each formatter has a parser
 * beside it, and the lemmas show that parsing undoes formatting.
 */
module Format {
  import opened Optional

  predicate IsDigit(c: char) { '0' <= c <= '9' }

  predicate AllDigits(s: string) { forall i :: 0 <= i < |s| ==> IsDigit(s[i]) }

  function DigitChar(d: nat): (c: char)
    requires d < 10
    ensures IsDigit(c)
  {
    ('0' as int + d) as char
  }

  function DigitValue(c: char): (d: nat)
    requires IsDigit(c)
    ensures d < 10
  {
    c as int - '0' as int
  }

  function Max(a: int, b: int): int { if a < b then b else a }

  function Pow10(k: nat): (p: nat)
    ensures p >= 1
  {
    if k == 0 then 1 else 10 * Pow10(k - 1)
  }

  /** Python's `str(n)` for a non-negative integer: its decimal digits, no leading zero. */
  function NatToString(n: nat): (s: string)
    ensures 1 <= |s| && AllDigits(s)
    ensures s[0] == '0' ==> n == 0
    decreases n
  {
    if n < 10 then [DigitChar(n)] else NatToString(n / 10) + [DigitChar(n % 10)]
  }

  /** Python's `str(i)` for any integer: a minus sign before the digits of a negative value. */
  function IntToString(i: int): (s: string)
    ensures 1 <= |s| && (s[0] == '-' <==> i < 0)
  {
    if i < 0 then "-" + NatToString(-i) else NatToString(i)
  }

  /** The value of a string of decimal digits, most significant first. */
  function DigitsValue(s: string): nat
    requires AllDigits(s)
    decreases |s|
  {
    if s == [] then 0 else 10 * DigitsValue(s[..|s| - 1]) + DigitValue(s[|s| - 1])
  }

  /** Python's `'0' * k`: k zeros, and the empty string when k is not positive. */
  function Zeros(k: int): (z: string)
    ensures |z| == Max(k, 0)
    ensures forall i :: 0 <= i < |z| ==> z[i] == '0'
    decreases k
  {
    if k <= 0 then "" else "0" + Zeros(k - 1)
  }

  /**
   * `i2s_l(val, length)`: `str(val)` preceded by as many zeros as it lacks to
   * reach `length` characters: a run of zeros followed by `str(val)`,
   * `max(length, len(str(val)))` long, so a wide value is never truncated.
   */
  function PadLeft(val: int, length: int): (r: string)
    ensures |r| == Max(length, |IntToString(val)|)
  {
    var s := IntToString(val);
    Zeros(length - |s|) + s
  }

  /**
   * `i2s_l` pads and never truncates: a run of zeros followed by `str(val)`,
   * `max(length, len(str(val)))` characters in all.
   */
  lemma PadLeftShape(val: int, length: int)
    ensures var r := PadLeft(val, length);
      && |r| == Max(length, |IntToString(val)|)
      && r[|r| - |IntToString(val)|..] == IntToString(val)
      && (forall i :: 0 <= i < |r| - |IntToString(val)| ==> r[i] == '0')
  {
    var s := IntToString(val);
    var z := Zeros(length - |s|);
    assert PadLeft(val, length) == z + s;
    assert (z + s)[|z|..] == s;
  }

  /** `sec_to_str(sec)`: elapsed seconds as `HH:MM:SS`; the hours are not wrapped. */
  function SecToStr(sec: nat): (r: string)
    ensures |r| >= 8
  {
    PadLeft(sec / 3600, 2) + ":" + PadLeft((sec % 3600) / 60, 2) + ":" + PadLeft(sec % 60, 2)
  }

  /**
   * Reads back an `H..H:MM:SS` string as a number of seconds: at least two
   * hour digits, two minute digits below 60 and two second digits below 60.
   */
  function ParseClock(t: string): Option<nat>
  {
    if |t| >= 8 && t[|t| - 6] == ':' && t[|t| - 3] == ':'
       && AllDigits(t[..|t| - 6]) && AllDigits(t[|t| - 5..|t| - 3]) && AllDigits(t[|t| - 2..])
       && DigitsValue(t[|t| - 5..|t| - 3]) < 60 && DigitsValue(t[|t| - 2..]) < 60
    then Some(DigitsValue(t[..|t| - 6]) * 3600 + DigitsValue(t[|t| - 5..|t| - 3]) * 60 + DigitsValue(t[|t| - 2..]))
    else None
  }

  /** The calendar tuple that `time.localtime` hands to `get_strftime` (only its first six fields are used). */
  datatype DateTuple = DateTuple(year: int, month: int, day: int, hour: int, minute: int, second: int)

  /** `get_strftime`'s layout `YYYY-MM-DD HH:MM:SS` of a calendar tuple. */
  function Strftime(t: DateTuple): (r: string)
    ensures |r| >= 19
  {
    PadLeft(t.year, 4) + "-" + PadLeft(t.month, 2) + "-" + PadLeft(t.day, 2) + " "
      + PadLeft(t.hour, 2) + ":" + PadLeft(t.minute, 2) + ":" + PadLeft(t.second, 2)
  }

  /** Fields narrow enough that `Strftime` keeps its fixed 19-character layout. */
  predicate FitsLayout(t: DateTuple)
  {
    0 <= t.year < 10000 && 0 <= t.month < 100 && 0 <= t.day < 100
    && 0 <= t.hour < 100 && 0 <= t.minute < 100 && 0 <= t.second < 100
  }

  /** Reads back a 19-character `YYYY-MM-DD HH:MM:SS` timestamp. */
  function ParseStamp(s: string): Option<DateTuple>
  {
    if |s| == 19 && s[4] == '-' && s[7] == '-' && s[10] == ' ' && s[13] == ':' && s[16] == ':'
       && AllDigits(s[0..4]) && AllDigits(s[5..7]) && AllDigits(s[8..10])
       && AllDigits(s[11..13]) && AllDigits(s[14..16]) && AllDigits(s[17..19])
    then Some(DateTuple(DigitsValue(s[0..4]), DigitsValue(s[5..7]), DigitsValue(s[8..10]),
                        DigitsValue(s[11..13]), DigitsValue(s[14..16]), DigitsValue(s[17..19])))
    else None
  }

  // ---------------------------------------------------------------- lemmas

  lemma {:induction false} NatToStringValue(n: nat)
    ensures DigitsValue(NatToString(n)) == n
    decreases n
  {
    if n >= 10 {
      var s := NatToString(n / 10);
      var t := s + [DigitChar(n % 10)];
      NatToStringValue(n / 10);
      assert t[..|t| - 1] == s;
    } else {
      var t := [DigitChar(n)];
      assert t[..|t| - 1] == [];
    }
  }

  /** `str(i)`: after the sign of a negative value come exactly the digits of its magnitude. */
  lemma IntToStringValue(i: int)
    ensures i < 0 ==> AllDigits(IntToString(i)[1..]) && DigitsValue(IntToString(i)[1..]) == -i
    ensures i >= 0 ==> AllDigits(IntToString(i)) && DigitsValue(IntToString(i)) == i
  {
    if i < 0 {
      var t := NatToString(-i);
      assert IntToString(i) == "-" + t;
      assert ("-" + t)[1..] == t;
      NatToStringValue(-i);
    } else {
      NatToStringValue(i);
    }
  }

  lemma {:induction false} ZerosValue(k: nat)
    ensures AllDigits(Zeros(k)) && DigitsValue(Zeros(k)) == 0
    decreases k
  {
    if k > 0 {
      var z := Zeros(k);
      assert z[..|z| - 1] == Zeros(k - 1);
      ZerosValue(k - 1);
    }
  }

  /** Leading zeros do not change the value of a digit string. */
  lemma {:induction false} LeadingZerosValue(z: string, s: string)
    requires AllDigits(s)
    requires forall i :: 0 <= i < |z| ==> z[i] == '0'
    ensures AllDigits(z + s) && DigitsValue(z + s) == DigitsValue(s)
    decreases |s|
  {
    if s == [] {
      assert z + s == z;
      assert z == Zeros(|z|);
      ZerosValue(|z|);
    } else {
      var w := z + s;
      assert w[..|w| - 1] == z + s[..|s| - 1];
      LeadingZerosValue(z, s[..|s| - 1]);
    }
  }

  /** Padding a non-negative value gives digits that read back as the value. */
  lemma PadLeftValue(val: nat, length: int)
    ensures AllDigits(PadLeft(val, length)) && DigitsValue(PadLeft(val, length)) == val
  {
    var s := NatToString(val);
    assert IntToString(val) == s;
    var z := Zeros(length - |s|);
    assert PadLeft(val, length) == z + s;
    NatToStringValue(val);
    LeadingZerosValue(z, s);
  }

  /** A non-negative value has at most k digits exactly when it is below 10^k. */
  lemma {:induction false} NatToStringWidth(n: nat, k: nat)
    requires k >= 1
    ensures |NatToString(n)| <= k <==> n < Pow10(k)
    decreases n
  {
    if n >= 10 {
      if k == 1 {
        assert |NatToString(n)| >= 2;
      } else {
        NatToStringWidth(n / 10, k - 1);
        assert n / 10 < Pow10(k - 1) <==> n < 10 * Pow10(k - 1);
      }
    } else {
      assert Pow10(k) == 10 * Pow10(k - 1);
    }
  }

  /** A field below 10^k is padded to exactly k digits that read back as the field. */
  lemma PadLeftField(val: int, k: nat)
    requires k >= 1 && 0 <= val < Pow10(k)
    ensures |PadLeft(val, k)| == k
    ensures AllDigits(PadLeft(val, k)) && DigitsValue(PadLeft(val, k)) == val
  {
    NatToStringWidth(val, k);
    PadLeftShape(val, k);
    PadLeftValue(val, k);
  }

  /**
   * `sec_to_str` splits `sec` into hours, minutes below 60 and seconds below
   * 60 that add back up to `sec`: parsing its output gives `sec` back.
   */
  lemma SecToStrRoundTrip(sec: nat)
    ensures ParseClock(SecToStr(sec)) == Some(sec)
  {
    var h, m, s := sec / 3600, (sec % 3600) / 60, sec % 60;
    ClockFields(sec);
    assert Pow10(2) == 100;
    var hs, ms, ss := PadLeft(h, 2), PadLeft(m, 2), PadLeft(s, 2);
    PadLeftValue(h, 2);
    PadLeftField(m, 2);
    PadLeftField(s, 2);
    assert DigitsValue(hs) == h && DigitsValue(ms) == m && DigitsValue(ss) == s;
    ClockLayout(SecToStr(sec), hs, ms, ss, sec);
  }

  /** The hours, minutes and seconds `sec_to_str` computes add back up to `sec`. */
  lemma ClockFields(sec: nat)
    ensures 0 <= (sec % 3600) / 60 < 60 && 0 <= sec % 60 < 60
    ensures (sec / 3600) * 3600 + ((sec % 3600) / 60) * 60 + sec % 60 == sec
  {
    assert sec % 3600 == ((sec % 3600) / 60) * 60 + (sec % 3600) % 60;
    assert (sec % 3600) % 60 == sec % 60;
  }

  /** Where the three fields sit in a joined `H..H:MM:SS` string. */
  lemma ClockLayout(t: string, hs: string, ms: string, ss: string, sec: nat)
    requires t == hs + ":" + ms + ":" + ss
    requires |hs| >= 2 && |ms| == 2 && |ss| == 2
    requires AllDigits(hs) && AllDigits(ms) && AllDigits(ss)
    requires DigitsValue(ms) < 60 && DigitsValue(ss) < 60
    requires DigitsValue(hs) * 3600 + DigitsValue(ms) * 60 + DigitsValue(ss) == sec
    ensures ParseClock(t) == Some(sec)
  {
    ClockSlices(t, hs, ms, ss);
    ParseClockFields(t, hs, ms, ss, sec);
  }

  lemma ClockSlices(t: string, hs: string, ms: string, ss: string)
    requires |ms| == 2 && |ss| == 2 && t == hs + ":" + ms + ":" + ss
    ensures |t| == |hs| + 6 && t[|t| - 6] == ':' && t[|t| - 3] == ':'
    ensures t[..|t| - 6] == hs && t[|t| - 5..|t| - 3] == ms && t[|t| - 2..] == ss
  {
    assert t[..|t| - 6] == hs;
    assert t[|t| - 5..|t| - 3] == ms;
    assert t[|t| - 2..] == ss;
  }

  lemma ParseClockFields(t: string, hs: string, ms: string, ss: string, sec: nat)
    requires |t| >= 8 && t[|t| - 6] == ':' && t[|t| - 3] == ':'
    requires t[..|t| - 6] == hs && t[|t| - 5..|t| - 3] == ms && t[|t| - 2..] == ss
    requires AllDigits(hs) && AllDigits(ms) && AllDigits(ss)
    requires DigitsValue(ms) < 60 && DigitsValue(ss) < 60
    requires DigitsValue(hs) * 3600 + DigitsValue(ms) * 60 + DigitsValue(ss) == sec
    ensures ParseClock(t) == Some(sec)
  {
  }

  /** The elapsed-time string is exactly eight characters wide only below 100 hours. */
  lemma SecToStrWidth(sec: nat)
    ensures |SecToStr(sec)| >= 8
    ensures |SecToStr(sec)| == 8 <==> sec < 360000
  {
    var h := sec / 3600;
    PadLeftShape(h, 2);
    PadLeftField((sec % 3600) / 60, 2);
    PadLeftField(sec % 60, 2);
    NatToStringWidth(h, 2);
  }

  lemma SecToStrExample()
    ensures SecToStr(3661) == "01:01:01"
  {
    assert 3661 / 3600 == 1 && (3661 % 3600) / 60 == 1 && 3661 % 60 == 1;
    assert NatToString(1) == "1";
    assert Zeros(1) == "0";
    assert PadLeft(1, 2) == "01";
  }

  /** `str()` of a negative value keeps its sign, so `i2s_l(-5, 3)` is `"0-5"`. */
  lemma PadLeftNegativeExample()
    ensures PadLeft(-5, 3) == "0-5"
  {
    assert NatToString(5) == "5";
    assert IntToString(-5) == "-5";
  }

  /** A calendar tuple whose fields fit the layout is formatted in 19 characters that parse back to it. */
  lemma StrftimeRoundTrip(t: DateTuple)
    requires FitsLayout(t)
    ensures |Strftime(t)| == 19
    ensures ParseStamp(Strftime(t)) == Some(t)
  {
    PadLeftField(t.year, 4);
    PadLeftField(t.month, 2);
    PadLeftField(t.day, 2);
    PadLeftField(t.hour, 2);
    PadLeftField(t.minute, 2);
    PadLeftField(t.second, 2);
    StampLayout(PadLeft(t.year, 4), PadLeft(t.month, 2), PadLeft(t.day, 2),
                PadLeft(t.hour, 2), PadLeft(t.minute, 2), PadLeft(t.second, 2));
  }

  /** The fixed positions of the six fields in a joined timestamp. */
  lemma StampLayout(y: string, mo: string, d: string, h: string, mi: string, se: string)
    requires |y| == 4 && |mo| == 2 && |d| == 2 && |h| == 2 && |mi| == 2 && |se| == 2
    requires AllDigits(y) && AllDigits(mo) && AllDigits(d) && AllDigits(h) && AllDigits(mi) && AllDigits(se)
    ensures |y + "-" + mo + "-" + d + " " + h + ":" + mi + ":" + se| == 19
    ensures ParseStamp(y + "-" + mo + "-" + d + " " + h + ":" + mi + ":" + se)
         == Some(DateTuple(DigitsValue(y), DigitsValue(mo), DigitsValue(d),
                           DigitsValue(h), DigitsValue(mi), DigitsValue(se)))
  {
    var s := y + "-" + mo + "-" + d + " " + h + ":" + mi + ":" + se;
    StampSlices(s, y, mo, d, h, mi, se);
    ParseStampFields(s, y, mo, d, h, mi, se);
  }

  lemma ParseStampFields(s: string, y: string, mo: string, d: string, h: string, mi: string, se: string)
    requires |s| == 19 && s[4] == '-' && s[7] == '-' && s[10] == ' ' && s[13] == ':' && s[16] == ':'
    requires s[0..4] == y && s[5..7] == mo && s[8..10] == d && s[11..13] == h && s[14..16] == mi && s[17..19] == se
    requires AllDigits(y) && AllDigits(mo) && AllDigits(d) && AllDigits(h) && AllDigits(mi) && AllDigits(se)
    ensures ParseStamp(s) == Some(DateTuple(DigitsValue(y), DigitsValue(mo), DigitsValue(d),
                                            DigitsValue(h), DigitsValue(mi), DigitsValue(se)))
  {
    assert AllDigits(s[0..4]) && AllDigits(s[5..7]) && AllDigits(s[8..10]);
    assert AllDigits(s[11..13]) && AllDigits(s[14..16]) && AllDigits(s[17..19]);
  }

  lemma StampSlices(s: string, y: string, mo: string, d: string, h: string, mi: string, se: string)
    requires |y| == 4 && |mo| == 2 && |d| == 2 && |h| == 2 && |mi| == 2 && |se| == 2
    requires s == y + "-" + mo + "-" + d + " " + h + ":" + mi + ":" + se
    ensures |s| == 19 && s[4] == '-' && s[7] == '-' && s[10] == ' ' && s[13] == ':' && s[16] == ':'
    ensures s[0..4] == y && s[5..7] == mo && s[8..10] == d && s[11..13] == h && s[14..16] == mi && s[17..19] == se
  {
    var p1 := y + "-";
    var p3 := p1 + mo + "-";
    var p5 := p3 + d + " ";
    var p7 := p5 + h + ":";
    var p9 := p7 + mi + ":";
    SliceOfPrefix(p9, se, 0, 4);
    SliceOfPrefix(p7, mi + ":", 0, 4);
    SliceOfPrefix(p5, h + ":", 0, 4);
    SliceOfPrefix(p3, d + " ", 0, 4);
    SliceOfPrefix(p1, mo + "-", 0, 4);
    SliceOfPrefix(y, "-", 0, 4);
    SliceOfPrefix(p9, se, 5, 7);
    SliceOfPrefix(p7, mi + ":", 5, 7);
    SliceOfPrefix(p5, h + ":", 5, 7);
    SliceOfPrefix(p3, d + " ", 5, 7);
    SliceOfPrefix(p9, se, 8, 10);
    SliceOfPrefix(p7, mi + ":", 8, 10);
    SliceOfPrefix(p5, h + ":", 8, 10);
    SliceOfPrefix(p9, se, 11, 13);
    SliceOfPrefix(p7, mi + ":", 11, 13);
    SliceOfPrefix(p9, se, 14, 16);
  }

  lemma SliceOfPrefix(a: string, b: string, i: nat, j: nat)
    requires i <= j <= |a|
    ensures (a + b)[i..j] == a[i..j]
  {
  }
}
