/**
 * The two `SimpleDateFormat` patterns the plugin hands to the sscm client,
 * "yyyyMMddHHmmss" for change-log date ranges and "yyyyMMddHH:mm:ss" for
 * the `-s` option of `get`, applied to calendar fields (turning milliseconds
 * into fields depends on the time zone and is an input here).
 */
module Stamps {
  import opened Wrappers
  import opened JavaText

  /** The calendar fields the patterns print. */
  datatype DateTime = DateTime(year: nat, month: nat, day: nat, hour: nat, minute: nat, second: nat)

  /** Fields small enough for their pattern letters: four digits of year, two of everything else. */
  predicate Printable(t: DateTime) {
    t.year < 10000 && t.month < 100 && t.day < 100 && t.hour < 100 && t.minute < 100 && t.second < 100
  }

  function Pow10(width: nat): (p: nat)
    ensures p >= 1
  {
    if width == 0 then 1 else 10 * Pow10(width - 1)
  }

  predicate IsDigit(c: char) {
    '0' <= c <= '9'
  }

  function DigitChar(d: nat): (c: char)
    requires d < 10
    ensures IsDigit(c)
  {
    ('0' as int + d) as char
  }

  /** The last `width` decimal digits of `n`, zero-padded on the left. */
  function Digits(n: nat, width: nat): (s: string)
    ensures |s| == width
    ensures forall k :: 0 <= k < width ==> IsDigit(s[k])
  {
    if width == 0 then [] else Digits(n / 10, width - 1) + [DigitChar(n % 10)]
  }

  /** The number a string of decimal digits denotes. */
  function DigitsValue(s: string): (n: nat)
    requires forall k :: 0 <= k < |s| ==> IsDigit(s[k])
  {
    if s == [] then 0
    else
      assert IsDigit(s[|s| - 1]);
      10 * DigitsValue(s[..|s| - 1]) + (s[|s| - 1] as int - '0' as int)
  }

  /** Reading back the digits gives the number, as long as it fits the width. */
  lemma {:induction false} DigitsRoundTrip(n: nat, width: nat)
    requires n < Pow10(width)
    ensures DigitsValue(Digits(n, width)) == n
  {
    if width > 0 {
      var s := Digits(n, width);
      assert s[..|s| - 1] == Digits(n / 10, width - 1);
      DigitsRoundTrip(n / 10, width - 1);
      assert s[|s| - 1] == DigitChar(n % 10);
    }
  }

  /** "yyyyMMddHHmmss". */
  function CompactStamp(t: DateTime): (s: string)
    ensures |s| == 14
    ensures forall k :: 0 <= k < 14 ==> IsDigit(s[k])
  {
    Digits(t.year, 4) + Digits(t.month, 2) + Digits(t.day, 2) + Digits(t.hour, 2) + Digits(t.minute, 2) + Digits(t.second, 2)
  }

  /** "yyyyMMddHH:mm:ss". */
  function ColonStamp(t: DateTime): (s: string)
    ensures |s| == 16 && s[10] == ':' && s[13] == ':'
  {
    Digits(t.year, 4) + Digits(t.month, 2) + Digits(t.day, 2) + Digits(t.hour, 2) + ":" + Digits(t.minute, 2) + ":" + Digits(t.second, 2)
  }

  /** Reads the fields back from a compact stamp. */
  function ReadCompactStamp(s: string): (t: Option<DateTime>)
    ensures t.Some? ==> |s| == 14
  {
    if |s| == 14 && forall k :: 0 <= k < 14 ==> IsDigit(s[k]) then
      Some(DateTime(DigitsValue(s[0..4]), DigitsValue(s[4..6]), DigitsValue(s[6..8]),
                    DigitsValue(s[8..10]), DigitsValue(s[10..12]), DigitsValue(s[12..14])))
    else None
  }

  /** The compact stamp loses nothing for printable fields. */
  lemma CompactStampRoundTrip(t: DateTime)
    requires Printable(t)
    ensures ReadCompactStamp(CompactStamp(t)) == Some(t)
  {
    var s := CompactStamp(t);
    var front := Digits(t.year, 4) + Digits(t.month, 2) + Digits(t.day, 2) + Digits(t.hour, 2) + Digits(t.minute, 2);
    assert s == front + Digits(t.second, 2) && |front| == 12;
    assert s[0..4] == Digits(t.year, 4);
    assert s[4..6] == Digits(t.month, 2);
    assert s[6..8] == Digits(t.day, 2);
    assert s[8..10] == Digits(t.hour, 2);
    assert s[10..12] == Digits(t.minute, 2);
    assert s[12..14] == Digits(t.second, 2);
    DigitsRoundTrip(t.year, 4);
    DigitsRoundTrip(t.month, 2);
    DigitsRoundTrip(t.day, 2);
    DigitsRoundTrip(t.hour, 2);
    DigitsRoundTrip(t.minute, 2);
    DigitsRoundTrip(t.second, 2);
  }

  /** Reads the fields back from a stamp with colons, by dropping the two colons. */
  function ReadColonStamp(s: string): (t: Option<DateTime>)
    ensures t.Some? ==> |s| == 16 && s[10] == ':' && s[13] == ':'
  {
    if |s| == 16 && s[10] == ':' && s[13] == ':' then ReadCompactStamp(s[..10] + s[11..13] + s[14..])
    else None
  }

  /** The stamp with colons is the compact stamp with two colons put in: it loses nothing either. */
  lemma {:induction false} ColonStampRoundTrip(t: DateTime)
    requires Printable(t)
    ensures ReadColonStamp(ColonStamp(t)) == Some(t)
  {
    var s := ColonStamp(t);
    var front := Digits(t.year, 4) + Digits(t.month, 2) + Digits(t.day, 2) + Digits(t.hour, 2);
    assert s == front + ":" + Digits(t.minute, 2) + ":" + Digits(t.second, 2);
    assert s[..10] + s[11..13] + s[14..] == front + Digits(t.minute, 2) + Digits(t.second, 2);
    assert front + Digits(t.minute, 2) + Digits(t.second, 2) == CompactStamp(t);
    CompactStampRoundTrip(t);
  }

  /** The `-d` range of `sscm cc`: two compact stamps joined by a colon. */
  function DateRange(last: DateTime, now: DateTime): (r: string)
    ensures |r| == 29 && r[14] == ':'
  {
    CompactStamp(last) + ":" + CompactStamp(now)
  }

  /** Splits a range at its first colon. */
  function SplitRange(r: string): (parts: Option<(string, string)>)
  {
    var colon := IndexOf(r, ':');
    if colon < 0 then None else Some((r[..colon], r[colon + 1..]))
  }

  /**
   * The range is unambiguous: its first colon is the one between the two
   * stamps, since the compact pattern prints digits only, so both dates can
   * be read back.
   */
  lemma DateRangeRoundTrip(last: DateTime, now: DateTime)
    requires Printable(last) && Printable(now)
    ensures SplitRange(DateRange(last, now)) == Some((CompactStamp(last), CompactStamp(now)))
    ensures ReadCompactStamp(CompactStamp(last)) == Some(last)
    ensures ReadCompactStamp(CompactStamp(now)) == Some(now)
  {
    var r := DateRange(last, now);
    var a := CompactStamp(last);
    IndexOfMeaning(r, ':');
    forall k | 0 <= k < 14 ensures r[k] != ':' {
      assert r[k] == a[k];
    }
    assert IndexOf(r, ':') == 14;
    assert r[..14] == a;
    assert r[15..] == CompactStamp(now);
    CompactStampRoundTrip(last);
    CompactStampRoundTrip(now);
  }
}
