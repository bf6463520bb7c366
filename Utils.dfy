/** `utils/Utils.kt`: message ids and the relative-time label of a timestamp. */
module Utils {
  import opened KotlinCore
  import opened Text

  /** `generateMessageId()`: the clock reading in milliseconds followed by a
      random number drawn from `0..999`, both in decimal. */
  function GenerateMessageId(millis: Long, random: int): (id: string)
    requires 0 <= random <= 999
    ensures |LongToString(millis)| + 1 <= |id| <= |LongToString(millis)| + 3
    ensures millis >= 0 ==> AllDigits(id)
  {
    var r := LongToString(random);
    assert |r| <= 3 by {
      if random >= 100 {
        assert NatToString(random) == NatToString(random / 10) + [DigitChar(random % 10)];
        assert |NatToString(random / 10)| == 2;
      }
    }
    LongToString(millis) + r
  }

  /** The id begins with the clock reading's digits. */
  lemma MessageIdStartsWithMillis(millis: Long, random: int)
    requires 0 <= random <= 999
    ensures LongToString(millis) <= GenerateMessageId(millis, random)
  {
  }

  /** The id scheme is not injective: two different (clock, random) pairs
      produce the same id. */
  lemma MessageIdCollision()
    ensures GenerateMessageId(1, 23) == GenerateMessageId(12, 3)
  {
    assert LongToString(23) == "23";
    assert LongToString(1) == "1" && LongToString(12) == "12" && LongToString(3) == "3";
  }

  /** Among clock readings with the same number of digits the id determines the
      reading and the random number: ids of one era collide only when both are equal. */
  lemma {:induction false} MessageIdInjectiveAtFixedWidth(m1: Long, r1: int, m2: Long, r2: int)
    requires 0 <= r1 <= 999 && 0 <= r2 <= 999
    requires |LongToString(m1)| == |LongToString(m2)|
    ensures GenerateMessageId(m1, r1) == GenerateMessageId(m2, r2) <==> m1 == m2 && r1 == r2
  {
    if GenerateMessageId(m1, r1) == GenerateMessageId(m2, r2) {
      var a1, a2 := LongToString(m1), LongToString(m2);
      var id := GenerateMessageId(m1, r1);
      assert a1 == id[..|a1|] == a2;
      assert LongToString(r1) == id[|a1|..] == LongToString(r2);
      LongToStringInjective(m1, m2);
      LongToStringInjective(r1, r2);
    }
  }

  /** The thresholds of `formatTimestamp`, in milliseconds. */
  const MINUTE: int := 60000
  const HOUR: int := 3600000
  const DAY: int := 86400000
  const WEEK: int := 604800000

  /** The five outcomes of `formatTimestamp`. The last three are rendered by
      `SimpleDateFormat` with the patterns "h:mm a", "EEE h:mm a" and
      "MMM d, h:mm a"; only the choice of pattern is modelled. */
  datatype TimestampLabel =
    | JustNow
    | MinutesAgo(minutes: int)
    | TimeOfDay
    | WeekdayAndTime
    | MonthDayAndTime

  /** `now.time - timestamp` computed in `Long` arithmetic. */
  function Elapsed(timestamp: Long, now: Long): Long {
    WrapLong(now - timestamp)
  }

  /** `formatTimestamp(timestamp)` with `Date().time` passed in as `now`. */
  function FormatTimestamp(timestamp: Long, now: Long): (tag: TimestampLabel)
    ensures var diff := Elapsed(timestamp, now);
      && (tag == JustNow <==> diff < MINUTE)
      && (tag.MinutesAgo? <==> MINUTE <= diff < HOUR)
      && (tag == TimeOfDay <==> HOUR <= diff < DAY)
      && (tag == WeekdayAndTime <==> DAY <= diff < WEEK)
      && (tag == MonthDayAndTime <==> WEEK <= diff)
    ensures tag.MinutesAgo? ==>
      (1 <= tag.minutes <= 59 && tag.minutes * MINUTE <= Elapsed(timestamp, now) < (tag.minutes + 1) * MINUTE)
  {
    var diff := Elapsed(timestamp, now);
    if diff < MINUTE then JustNow
    else if diff < HOUR then MinutesAgo(diff / MINUTE)
    else if diff < DAY then TimeOfDay
    else if diff < WEEK then WeekdayAndTime
    else MonthDayAndTime
  }

  /** The text of the two relative labels; `None` for the three date patterns. */
  function RelativeText(tag: TimestampLabel): Option<string> {
    match tag
    case JustNow => Some("Just now")
    case MinutesAgo(k) => Some(LongToString(k) + "m ago")
    case _ => None
  }

  /** Position of a label on the scale from newest to oldest. */
  function Age(tag: TimestampLabel): nat {
    match tag
    case JustNow => 0
    case MinutesAgo(_) => 1
    case TimeOfDay => 2
    case WeekdayAndTime => 3
    case MonthDayAndTime => 4
  }

  /** Because the thresholds increase, a larger wrapped difference `now - timestamp`
      never gets a more recent label, and within the minutes bucket the count
      never decreases. (Ordered by timestamp instead, this needs the proviso of
      `FormatTimestampMonotoneInTime`.) */
  lemma FormatTimestampMonotone(t1: Long, t2: Long, now: Long)
    requires Elapsed(t1, now) <= Elapsed(t2, now)
    ensures Age(FormatTimestamp(t1, now)) <= Age(FormatTimestamp(t2, now))
    ensures FormatTimestamp(t1, now).MinutesAgo? && FormatTimestamp(t2, now).MinutesAgo? ==>
      FormatTimestamp(t1, now).minutes <= FormatTimestamp(t2, now).minutes
  {
  }

  /** Of two timestamps the older one never gets a newer label, provided neither
      subtraction overflows. */
  lemma {:induction false} FormatTimestampMonotoneInTime(older: Long, newer: Long, now: Long)
    requires older <= newer
    requires LONG_MIN <= now - older <= LONG_MAX && LONG_MIN <= now - newer <= LONG_MAX
    ensures Age(FormatTimestamp(newer, now)) <= Age(FormatTimestamp(older, now))
  {
    FormatTimestampMonotone(newer, older, now);
  }

  /** The proviso is needed: at time 0 the oldest `Long` timestamp shows
      "Just now", since `0 - Long.MIN_VALUE` wraps to `Long.MIN_VALUE`, while a
      timestamp two minutes before 0 shows "2m ago". */
  lemma FormatTimestampOverflow()
    ensures FormatTimestamp(LONG_MIN, 0) == JustNow
    ensures FormatTimestamp(-120000, 0) == MinutesAgo(2)
    ensures LONG_MIN < -120000
  {
  }

  /** The text shown for a timestamp: "Just now" under a minute, the whole
      minutes followed by "m ago" under an hour, and a date pattern otherwise. */
  lemma RelativeTextOfTimestamp(timestamp: Long, now: Long)
    ensures RelativeText(FormatTimestamp(timestamp, now)).Some? <==> Elapsed(timestamp, now) < HOUR
    ensures Elapsed(timestamp, now) < MINUTE ==> RelativeText(FormatTimestamp(timestamp, now)) == Some("Just now")
    ensures MINUTE <= Elapsed(timestamp, now) < HOUR ==>
      RelativeText(FormatTimestamp(timestamp, now)) == Some(LongToString(Elapsed(timestamp, now) / MINUTE) + "m ago")
  {
  }

  /** A timestamp in the future (or at most a minute old) shows "Just now",
      provided the subtraction does not overflow. */
  lemma FutureIsJustNow(timestamp: Long, now: Long)
    requires now - timestamp < MINUTE
    requires LONG_MIN <= now - timestamp
    ensures FormatTimestamp(timestamp, now) == JustNow
    ensures RelativeText(FormatTimestamp(timestamp, now)) == Some("Just now")
  {
  }
}
