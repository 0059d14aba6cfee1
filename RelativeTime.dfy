/** `formatRelativeTime` of app/utils/format.ts: how long ago a message
    was sent, in the coarsest unit below a week. The clock is a parameter
    and the locale-dependent `formatTime(timestamp, {showDate: true})` is an
    abstract function passed in by the caller. */
module RelativeTime {

  const MS_PER_SECOND := 1000
  const MS_PER_MINUTE := 60 * 1000
  const MS_PER_HOUR := 60 * 60 * 1000
  const MS_PER_DAY := 24 * 60 * 60 * 1000
  const MS_PER_WEEK := 7 * 24 * 60 * 60 * 1000

  function DigitChar(d: nat): char
    requires d < 10
  {
    "0123456789"[d]
  }

  /** The decimal rendering of a natural number, as a template literal
      `${n}` renders it. */
  function Decimal(n: nat): (s: string)
    ensures |s| >= 1
    ensures forall i :: 0 <= i < |s| ==> '0' <= s[i] <= '9'
    ensures n >= 10 ==> s[0] != '0'
  {
    if n < 10 then [DigitChar(n)] else Decimal(n / 10) + [DigitChar(n % 10)]
  }

  /** Reads back a string of decimal digits. */
  function DigitsValue(s: string): nat
    requires forall i :: 0 <= i < |s| ==> '0' <= s[i] <= '9'
  {
    if s == [] then 0 else 10 * DigitsValue(s[..|s| - 1]) + (s[|s| - 1] - '0') as nat
  }

  /** `Decimal` loses nothing: the digits read back as the number. */
  lemma {:induction false} DecimalRoundTrip(n: nat)
    ensures DigitsValue(Decimal(n)) == n
  {
    var s := Decimal(n);
    if n >= 10 {
      DecimalRoundTrip(n / 10);
      assert s[..|s| - 1] == Decimal(n / 10);
      assert s[|s| - 1] == DigitChar(n % 10);
      DigitCharValue(n % 10);
    } else {
      DigitCharValue(n);
    }
  }

  lemma DigitCharValue(d: nat)
    requires d < 10
    ensures (DigitChar(d) - '0') as nat == d
  {
  }

  /** Floor division nests: dividing by 1000, then 60, 60 and 24 is
      dividing by the length of a second, minute, hour and day. */
  lemma NestedFloorDivision(diff: int)
    ensures diff / 1000 / 60 == diff / MS_PER_MINUTE
    ensures diff / 1000 / 60 / 60 == diff / MS_PER_HOUR
    ensures diff / 1000 / 60 / 60 / 24 == diff / MS_PER_DAY
  {
    var s := diff / 1000;
    var m := s / 60;
    var h := m / 60;
    assert 60000 * m <= diff < 60000 * m + 60000;
    assert 3600000 * h <= diff < 3600000 * h + 3600000;
    assert 86400000 * (h / 24) <= diff < 86400000 * (h / 24) + 86400000;
  }

  /** Where the bucket boundaries of the nested divisions fall, in
      milliseconds, and the range of the count in each bucket. */
  lemma Buckets(diff: int)
    ensures diff / 1000 < 30 <==> diff < 30 * MS_PER_SECOND
    ensures diff / 1000 < 60 <==> diff < MS_PER_MINUTE
    ensures diff / MS_PER_MINUTE < 60 <==> diff < MS_PER_HOUR
    ensures diff / MS_PER_HOUR < 24 <==> diff < MS_PER_DAY
    ensures diff / MS_PER_DAY < 7 <==> diff < MS_PER_WEEK
    ensures MS_PER_MINUTE <= diff ==> 1 <= diff / MS_PER_MINUTE
    ensures MS_PER_HOUR <= diff ==> 1 <= diff / MS_PER_HOUR
    ensures MS_PER_DAY <= diff ==> 1 <= diff / MS_PER_DAY
  {
  }

  lemma UnitWords()
    ensures " minute" + "" + " ago" == " minute ago" && " minute" + "s" + " ago" == " minutes ago"
    ensures " hour" + "" + " ago" == " hour ago" && " hour" + "s" + " ago" == " hours ago"
    ensures " day" + "" + " ago" == " day ago" && " day" + "s" + " ago" == " days ago"
  {
  }

  /** The result of `formatRelativeTime(timestamp)` when `Date.now()` is
      `now`. The buckets are computed as the source does, by successive
      floor divisions of the elapsed milliseconds; the contract states them
      as ranges of the elapsed time instead, so exactly one case applies to
      every input. `FormatRelativeTimeUnits` gives the minute, hour and day
      buckets. */
  function FormatRelativeTime(timestamp: int, now: int, formatDate: int -> string): (r: string)
    ensures now - timestamp < 30 * MS_PER_SECOND ==> r == "just now"
    ensures 30 * MS_PER_SECOND <= now - timestamp < MS_PER_MINUTE ==>
      r == Decimal((now - timestamp) / MS_PER_SECOND) + " seconds ago"
    ensures now - timestamp >= MS_PER_WEEK ==> r == formatDate(timestamp)
  {
    var diff := now - timestamp;
    var seconds := diff / 1000;
    var minutes := seconds / 60;
    var hours := minutes / 60;
    var days := hours / 24;
    NestedFloorDivision(diff);
    Buckets(diff);
    UnitWords();
    if seconds < 30 then "just now"
    else if seconds < 60 then Decimal(seconds) + " seconds ago"
    else if minutes < 60 then Decimal(minutes) + " minute" + (if minutes == 1 then "" else "s") + " ago"
    else if hours < 24 then Decimal(hours) + " hour" + (if hours == 1 then "" else "s") + " ago"
    else if days < 7 then Decimal(days) + " day" + (if days == 1 then "" else "s") + " ago"
    else formatDate(timestamp)
  }

  /** Between a minute and a week, the count of whole minutes, hours or
      days elapsed, with the singular unit word for a count of one. */
  lemma FormatRelativeTimeUnits(timestamp: int, now: int, formatDate: int -> string)
    ensures var r := FormatRelativeTime(timestamp, now, formatDate);
      && (MS_PER_MINUTE <= now - timestamp < MS_PER_HOUR ==>
            var m := (now - timestamp) / MS_PER_MINUTE;
            1 <= m < 60 && r == Decimal(m) + (if m == 1 then " minute ago" else " minutes ago"))
      && (MS_PER_HOUR <= now - timestamp < MS_PER_DAY ==>
            var h := (now - timestamp) / MS_PER_HOUR;
            1 <= h < 24 && r == Decimal(h) + (if h == 1 then " hour ago" else " hours ago"))
      && (MS_PER_DAY <= now - timestamp < MS_PER_WEEK ==>
            var d := (now - timestamp) / MS_PER_DAY;
            1 <= d < 7 && r == Decimal(d) + (if d == 1 then " day ago" else " days ago"))
  {
    var diff := now - timestamp;
    var r := FormatRelativeTime(timestamp, now, formatDate);
    NestedFloorDivision(diff);
    Buckets(diff);
    UnitWords();
    if MS_PER_MINUTE <= diff < MS_PER_HOUR {
      var m := diff / MS_PER_MINUTE;
      assert r == Decimal(m) + " minute" + (if m == 1 then "" else "s") + " ago";
      Reassociate(Decimal(m), " minute", if m == 1 then "" else "s", " ago");
    } else if MS_PER_HOUR <= diff < MS_PER_DAY {
      var h := diff / MS_PER_HOUR;
      assert r == Decimal(h) + " hour" + (if h == 1 then "" else "s") + " ago";
      Reassociate(Decimal(h), " hour", if h == 1 then "" else "s", " ago");
    } else if MS_PER_DAY <= diff < MS_PER_WEEK {
      var d := diff / MS_PER_DAY;
      assert r == Decimal(d) + " day" + (if d == 1 then "" else "s") + " ago";
      Reassociate(Decimal(d), " day", if d == 1 then "" else "s", " ago");
    }
  }

  lemma Reassociate(a: string, b: string, c: string, d: string)
    ensures a + b + c + d == a + (b + c + d)
  {
  }
}
