/**
 * The part of PHP's date() the plugin uses: the format 'YmdHi', a
 * fixed-width twelve-digit rendering of a date and time at minute
 * precision. WordPress sets PHP's default time zone to UTC, so date()
 * renders UTC wall-clock time. The wall clock itself is a parameter: a DateTime value.
 */
module PhpDate {
  import opened PhpStrings

  /** A UTC date and time as date() sees it, down to the second. */
  datatype DateTime = DateTime(year: int, month: int, day: int, hour: int, minute: int, second: int) {
    /**
     * Field ranges date() can produce. Years are kept to four digits, the
     * range in which 'Y' has a fixed width.
     */
    predicate Valid() {
      0 <= year <= 9999 && 1 <= month <= 12 && 1 <= day <= 31
      && 0 <= hour < 24 && 0 <= minute < 60 && 0 <= second < 60
    }

    /** Same calendar minute: every field but the seconds agrees. */
    predicate SameMinute(other: DateTime) {
      year == other.year && month == other.month && day == other.day
      && hour == other.hour && minute == other.minute
    }
  }

  function Pow10(w: nat): (p: nat)
    ensures p >= 1
  {
    if w == 0 then 1 else 10 * Pow10(w - 1)
  }

  /** n in exactly w decimal digits, with leading zeros (date()'s 'm', 'd', 'H', 'i', 'Y'). */
  function ZeroPad(n: nat, w: nat): (s: string)
    ensures |s| == w && forall k :: 0 <= k < |s| ==> IsDigit(s[k])
  {
    if w == 0 then [] else ZeroPad(n / 10, w - 1) + [DigitChar(n % 10)]
  }

  /** Reading back a zero-padded number gives the number, as long as it fits in w digits. */
  lemma {:induction false} ZeroPadValue(n: nat, w: nat)
    requires n < Pow10(w)
    ensures DigitsValue(ZeroPad(n, w)) == n
  {
    if w > 0 {
      var s := ZeroPad(n, w);
      assert s[..|s| - 1] == ZeroPad(n / 10, w - 1);
      assert n / 10 < Pow10(w - 1);
      ZeroPadValue(n / 10, w - 1);
    }
  }

  /** date('YmdHi', t). */
  function FormatYmdHi(t: DateTime): (s: string)
    requires t.Valid()
    ensures |s| == 12 && forall k :: 0 <= k < |s| ==> IsDigit(s[k])
  {
    ZeroPad(t.year, 4) + ZeroPad(t.month, 2) + ZeroPad(t.day, 2) + ZeroPad(t.hour, 2) + ZeroPad(t.minute, 2)
  }

  /** The seconds do not show: two instants of one minute render alike. */
  lemma FormatIgnoresSeconds(a: DateTime, b: DateTime)
    requires a.Valid() && b.Valid() && a.SameMinute(b)
    ensures FormatYmdHi(a) == FormatYmdHi(b)
  {
  }

  /** Two renderings are equal only for instants of the same minute. */
  lemma FormatDistinguishesMinutes(a: DateTime, b: DateTime)
    requires a.Valid() && b.Valid()
    requires FormatYmdHi(a) == FormatYmdHi(b)
    ensures a.SameMinute(b)
  {
    var s := FormatYmdHi(a);
    var u := FormatYmdHi(b);
    assert s[0..4] == ZeroPad(a.year, 4) && u[0..4] == ZeroPad(b.year, 4);
    assert s[4..6] == ZeroPad(a.month, 2) && u[4..6] == ZeroPad(b.month, 2);
    assert s[6..8] == ZeroPad(a.day, 2) && u[6..8] == ZeroPad(b.day, 2);
    assert s[8..10] == ZeroPad(a.hour, 2) && u[8..10] == ZeroPad(b.hour, 2);
    assert s[10..12] == ZeroPad(a.minute, 2) && u[10..12] == ZeroPad(b.minute, 2);
    ZeroPadValue(a.year, 4);
    ZeroPadValue(b.year, 4);
    ZeroPadValue(a.month, 2);
    ZeroPadValue(b.month, 2);
    ZeroPadValue(a.day, 2);
    ZeroPadValue(b.day, 2);
    ZeroPadValue(a.hour, 2);
    ZeroPadValue(b.hour, 2);
    ZeroPadValue(a.minute, 2);
    ZeroPadValue(b.minute, 2);
  }
}
