/**
 * `format_timestamp` and `format_timestamp_vtt`: a non-negative number of
 * seconds rendered as `HH:MM:SS,mmm` for SubRip and `HH:MM:SS.mmm` for
 * WebVTT, with the milliseconds truncated and the hours never wrapped.
 */
module Timestamp {
  import opened Wrappers
  import opened Text

  /** A time offset as the transcription engine reports it; never negative. */
  type Seconds = x: real | x >= 0.0

  /** The four fields of a timestamp. */
  datatype Clock = Clock(h: nat, m: nat, s: nat, ms: nat)

  /** `int(seconds)`: for a non-negative value, its floor. */
  function WholeSeconds(x: Seconds): (n: nat)
    ensures n as real <= x < n as real + 1.0
  {
    x.Floor
  }

  /** `int((seconds - int(seconds)) * 1000)`: the fraction in thousandths,
      truncated rather than rounded. */
  function Millis(x: Seconds): (ms: nat)
    ensures ms < 1000
    ensures ms as real <= (x - WholeSeconds(x) as real) * 1000.0 < ms as real + 1.0
  {
    ((x - x.Floor as real) * 1000.0).Floor
  }

  /** The fields computed by both functions: `s = n % 60`,
      `m = (n // 60) % 60` and `h = n // 3600` for `n = int(seconds)`. */
  function Decompose(x: Seconds): (c: Clock)
    ensures c.m < 60 && c.s < 60 && c.ms < 1000
    ensures c.h * 3600 + c.m * 60 + c.s == WholeSeconds(x)
    ensures c.ms == Millis(x)
  {
    var n := WholeSeconds(x);
    DivMod3600(n);
    Clock(n / 3600, (n / 60) % 60, n % 60, Millis(x))
  }

  lemma DivMod3600(n: nat)
    ensures (n / 3600) * 3600 + ((n / 60) % 60) * 60 + n % 60 == n
  {
    var q := n / 60;
    assert n == q * 60 + n % 60;
    assert q / 60 == n / 3600;
    assert q == (q / 60) * 60 + q % 60;
  }

  /** The clock fields of a timestamp are determined by the whole seconds and
      the truncated milliseconds, and determine them back. */
  lemma DecomposeInjective(x: Seconds, y: Seconds)
    ensures Decompose(x) == Decompose(y) <==> WholeSeconds(x) == WholeSeconds(y) && Millis(x) == Millis(y)
  {
    var cx, cy := Decompose(x), Decompose(y);
    if WholeSeconds(x) == WholeSeconds(y) && Millis(x) == Millis(y) {
      assert cx == cy;
    }
  }

  /** `f"{h:02d}:{m:02d}:{s:02d}{sep}{ms:03d}"`. */
  function Render(c: Clock, sep: char): string {
    ZeroPad(c.h, 2) + ":" + ZeroPad(c.m, 2) + ":" + ZeroPad(c.s, 2) + [sep] + ZeroPad(c.ms, 3)
  }

  /** `format_timestamp`: the SubRip form, with a comma before the
      milliseconds. */
  function FormatTimestamp(x: Seconds): string {
    Render(Decompose(x), ',')
  }

  /** `format_timestamp_vtt`: the WebVTT form, with a full stop before the
      milliseconds. */
  function FormatTimestampVtt(x: Seconds): string {
    Render(Decompose(x), '.')
  }

  /** Reads a rendered timestamp back: two or more digits of hours, then
      `:MM:SS`, the separator and three digits of milliseconds, with minutes
      and seconds below 60. Anything else is rejected. */
  function ParseTimestamp(t: string, sep: char): Option<Clock> {
    var n := |t|;
    if n < 12 then None
    else if t[n - 10] != ':' || t[n - 7] != ':' || t[n - 4] != sep then None
    else if !AllDigits(t[..n - 10]) || !AllDigits(t[n - 9..n - 7]) then None
    else if !AllDigits(t[n - 6..n - 4]) || !AllDigits(t[n - 3..]) then None
    else
      var c := Clock(ParseDigits(t[..n - 10]), ParseDigits(t[n - 9..n - 7]),
                     ParseDigits(t[n - 6..n - 4]), ParseDigits(t[n - 3..]));
      if c.m < 60 && c.s < 60 then Some(c) else None
  }

  /** Minutes and seconds take two characters, milliseconds three, and
      hours two or more. */
  lemma FieldWidths(c: Clock)
    requires c.m < 60 && c.s < 60 && c.ms < 1000
    ensures |ZeroPad(c.h, 2)| >= 2 && |ZeroPad(c.m, 2)| == 2
    ensures |ZeroPad(c.s, 2)| == 2 && |ZeroPad(c.ms, 3)| == 3
  {
    ZeroPadSpec(c.h, 2);
    ZeroPadSpec(c.m, 2);
    ZeroPadSpec(c.s, 2);
    ZeroPadSpec(c.ms, 3);
    assert Pow10(2) == 100 && Pow10(3) == 1000;
  }

  /** The shape of a rendered timestamp: at least two digits of hours, and
      the ten characters `:MM:SS` + separator + `mmm` after them. */
  lemma RenderShape(c: Clock, sep: char)
    requires c.m < 60 && c.s < 60 && c.ms < 1000
    ensures var t := Render(c, sep); var n := |t|;
      && n >= 12 && t[..n - 10] == ZeroPad(c.h, 2)
      && t[n - 10] == ':' && t[n - 9..n - 7] == ZeroPad(c.m, 2)
      && t[n - 7] == ':' && t[n - 6..n - 4] == ZeroPad(c.s, 2)
      && t[n - 4] == sep && t[n - 3..] == ZeroPad(c.ms, 3)
  {
    FieldWidths(c);
    Fields(ZeroPad(c.h, 2), ZeroPad(c.m, 2), ZeroPad(c.s, 2), ZeroPad(c.ms, 3), sep);
  }

  /** Where each field sits in `hh:mm:ss` + separator + `mmm` when the last
      three fields have their fixed widths. */
  lemma Fields(hh: string, mm: string, ss: string, mmm: string, sep: char)
    requires |hh| >= 2 && |mm| == 2 && |ss| == 2 && |mmm| == 3
    ensures var t := hh + ":" + mm + ":" + ss + [sep] + mmm; var n := |t|;
      && n >= 12 && t[..n - 10] == hh
      && t[n - 10] == ':' && t[n - 9..n - 7] == mm
      && t[n - 7] == ':' && t[n - 6..n - 4] == ss
      && t[n - 4] == sep && t[n - 3..] == mmm
  {
    var t := hh + ":" + mm + ":" + ss + [sep] + mmm;
    var tail := ":" + mm + ":" + ss + [sep] + mmm;
    assert t == hh + tail;
    assert t[|hh|..] == tail;
    assert tail[1..3] == mm;
    assert tail[4..6] == ss;
    assert tail[7..] == mmm;
  }

  /** Parsing a rendered clock gives the clock back. */
  lemma ParseRender(c: Clock, sep: char)
    requires c.m < 60 && c.s < 60 && c.ms < 1000
    ensures ParseTimestamp(Render(c, sep), sep) == Some(c)
  {
    RenderShape(c, sep);
    ZeroPadSpec(c.h, 2);
    ZeroPadSpec(c.m, 2);
    ZeroPadSpec(c.s, 2);
    ZeroPadSpec(c.ms, 3);
  }

  /** The SubRip timestamp reads back as the hours, minutes, seconds and
      milliseconds of the input, so it loses exactly the sub-millisecond
      part: the hour count is `floor(x) / 3600` however large. */
  lemma FormatTimestampRoundTrip(x: Seconds)
    ensures ParseTimestamp(FormatTimestamp(x), ',') == Some(Decompose(x))
    ensures ParseTimestamp(FormatTimestampVtt(x), '.') == Some(Decompose(x))
  {
    ParseRender(Decompose(x), ',');
    ParseRender(Decompose(x), '.');
  }

  /** Two offsets get the same SubRip timestamp exactly when they agree in
      whole seconds and in truncated milliseconds. */
  lemma FormatTimestampEqual(x: Seconds, y: Seconds)
    ensures FormatTimestamp(x) == FormatTimestamp(y) <==>
      WholeSeconds(x) == WholeSeconds(y) && Millis(x) == Millis(y)
  {
    FormatTimestampRoundTrip(x);
    FormatTimestampRoundTrip(y);
    DecomposeInjective(x, y);
  }

  /** The WebVTT timestamp is the SubRip one with the comma before the
      milliseconds replaced by a full stop, and nothing else changed. */
  lemma VttIsSrtWithFullStop(x: Seconds)
    ensures var srt, vtt := FormatTimestamp(x), FormatTimestampVtt(x);
      && |vtt| == |srt| >= 12
      && srt[|srt| - 4] == ',' && vtt[|vtt| - 4] == '.'
      && vtt == srt[|srt| - 4 := '.']
  {
    var c := Decompose(x);
    RenderShape(c, ',');
    RenderShape(c, '.');
  }

  /** The WebVTT timestamp has the shape section 4.1 of the W3C WebVTT
      specification asks for: two or more digits of hours, two digits each
      of minutes and seconds below 60, and three digits of milliseconds. */
  lemma VttTimestampShape(x: Seconds)
    ensures var t := FormatTimestampVtt(x); var n := |t|;
      && n >= 12 && AllDigits(t[..n - 10])
      && t[n - 10] == ':' && AllDigits(t[n - 9..n - 7]) && ParseDigits(t[n - 9..n - 7]) < 60
      && t[n - 7] == ':' && AllDigits(t[n - 6..n - 4]) && ParseDigits(t[n - 6..n - 4]) < 60
      && t[n - 4] == '.' && AllDigits(t[n - 3..])
  {
    var c := Decompose(x);
    RenderShape(c, '.');
    ZeroPadSpec(c.h, 2);
    ZeroPadSpec(c.m, 2);
    ZeroPadSpec(c.s, 2);
    ZeroPadSpec(c.ms, 3);
  }

  /** Zero seconds: every field zero-padded. */
  lemma FormatZero()
    ensures FormatTimestamp(0.0) == "00:00:00,000"
  {
    var c := Decompose(0.0);
    assert c == Clock(0, 0, 0, 0);
    assert ZeroPad(0, 2) == "00";
    assert ZeroPad(0, 3) == "000";
  }

  /** 3661.999 seconds: one hour, one minute, one second, 999 thousandths. */
  lemma FormatOneHourOneMinute()
    ensures FormatTimestamp(3661.999) == "01:01:01,999"
  {
    assert (3661.999 as real).Floor == 3661;
    var c := Decompose(3661.999);
    assert c == Clock(1, 1, 1, 999);
    assert ZeroPad(1, 2) == "01";
    assert Digits(999) == "999" by {
      assert Digits(99) == "99" by {
        assert Digits(9) == "9";
      }
    }
    assert ZeroPad(999, 3) == "999";
  }

  /** 100 hours: the hour field grows to three digits instead of wrapping. */
  lemma FormatHundredHours()
    ensures FormatTimestampVtt(360000.0) == "100:00:00.000"
  {
    var c := Decompose(360000.0);
    assert c == Clock(100, 0, 0, 0);
    assert Digits(100) == "100" by {
      assert Digits(10) == "10" by {
        assert Digits(1) == "1";
      }
    }
    assert ZeroPad(100, 2) == "100";
    assert ZeroPad(0, 2) == "00";
    assert ZeroPad(0, 3) == "000";
  }

  lemma FormatZeroVtt()
    ensures FormatTimestampVtt(0.0) == "00:00:00.000"
  {
    var c := Decompose(0.0);
    assert c == Clock(0, 0, 0, 0);
    assert ZeroPad(0, 2) == "00";
    assert ZeroPad(0, 3) == "000";
  }

  lemma Digits500()
    ensures ZeroPad(500, 3) == "500"
  {
    assert Digits(500) == "500" by {
      assert Digits(50) == "50" by {
        assert Digits(5) == "5";
      }
    }
  }

  /** One and a half seconds: half a second is 500 thousandths. */
  lemma FormatOneAndAHalf()
    ensures FormatTimestamp(1.5) == "00:00:01,500"
  {
    assert Decompose(1.5) == Clock(0, 0, 1, 500);
    assert ZeroPad(0, 2) == "00" && ZeroPad(1, 2) == "01";
    Digits500();
  }

  lemma FormatOneAndAHalfVtt()
    ensures FormatTimestampVtt(1.5) == "00:00:01.500"
  {
    assert Decompose(1.5) == Clock(0, 0, 1, 500);
    assert ZeroPad(0, 2) == "00" && ZeroPad(1, 2) == "01";
    Digits500();
  }
}
