/**
 * `formatBRLDateToISO`: finds the leftmost `DD/MM/YYYY` in a string, with an
 * optional ` HH:MM:SS` or `THH:MM:SS` right after it, and rewrites it as
 * `YYYY-MM-DDTHH:MM:SS`; the time defaults to `00:00:00`. The regular
 * expression is not anchored, so text around the match is ignored, and `\d`
 * means an ASCII digit.
 */
module BrlDate {
  import opened JsText
  import opened JsNumber

  /** Two ASCII digits at `p` and `p + 1`. */
  predicate TwoDigitsAt(s: string, p: nat) {
    p + 2 <= |s| && IsDigit(s[p]) && IsDigit(s[p + 1])
  }

  /** `(\d{2})\/(\d{2})\/(\d{4})` matches at `p`. */
  predicate DateAt(s: string, p: nat) {
    && p + 10 <= |s|
    && TwoDigitsAt(s, p) && s[p + 2] == '/'
    && TwoDigitsAt(s, p + 3) && s[p + 5] == '/'
    && TwoDigitsAt(s, p + 6) && TwoDigitsAt(s, p + 8)
  }

  /** `[ T](\d{2}):(\d{2}):(\d{2})` matches at `q`. */
  predicate TimeAt(s: string, q: nat) {
    && q + 9 <= |s|
    && (s[q] == ' ' || s[q] == 'T')
    && TwoDigitsAt(s, q + 1) && s[q + 3] == ':'
    && TwoDigitsAt(s, q + 4) && s[q + 6] == ':'
    && TwoDigitsAt(s, q + 7)
  }

  /**
   * Where the regular expression matches: the leftmost position at or after
   * `from` where the date part matches (the time group is optional, so it
   * never makes a match fail).
   */
  function FindDate(s: string, from: nat): (r: Option<nat>)
    ensures r.Some? ==> from <= r.value && DateAt(s, r.value)
    ensures r.Some? ==> forall k :: from <= k < r.value ==> !DateAt(s, k)
    ensures r.None? ==> forall k :: from <= k ==> !DateAt(s, k)
    decreases |s| - from
  {
    if from + 10 > |s| then None
    else if DateAt(s, from) then Some(from)
    else FindDate(s, from + 1)
  }

  /** The six capture groups, each a string of two (the year: four) digits. */
  datatype DateTime = DateTime(day: string, month: string, year: string,
                               hour: string, minute: string, second: string)

  predicate AllDigits(t: string) {
    forall k :: 0 <= k < |t| ==> IsDigit(t[k])
  }

  predicate WellFormed(d: DateTime) {
    && |d.day| == 2 && |d.month| == 2 && |d.year| == 4
    && |d.hour| == 2 && |d.minute| == 2 && |d.second| == 2
    && AllDigits(d.day) && AllDigits(d.month) && AllDigits(d.year)
    && AllDigits(d.hour) && AllDigits(d.minute) && AllDigits(d.second)
  }

  /**
   * The groups of the match at `p`: the date groups are the matched digits;
   * the greedy optional time group is taken when it matches, and the time is
   * `00:00:00` when it does not.
   */
  function Groups(s: string, p: nat): (d: DateTime)
    requires DateAt(s, p)
    ensures WellFormed(d)
    ensures d.day == s[p..p + 2] && d.month == s[p + 3..p + 5] && d.year == s[p + 6..p + 10]
    ensures TimeAt(s, p + 10) ==> d.hour == s[p + 11..p + 13] && d.minute == s[p + 14..p + 16] && d.second == s[p + 17..p + 19]
    ensures !TimeAt(s, p + 10) ==> d.hour == "00" && d.minute == "00" && d.second == "00"
  {
    var q := p + 10;
    if TimeAt(s, q) then
      DateTime(s[p..p + 2], s[p + 3..p + 5], s[p + 6..p + 10], s[q + 1..q + 3], s[q + 4..q + 6], s[q + 7..q + 9])
    else
      DateTime(s[p..p + 2], s[p + 3..p + 5], s[p + 6..p + 10], "00", "00", "00")
  }

  /** The template literal `${year}-${month}-${day}T${hour}:${minute}:${second}`. */
  function IsoOf(d: DateTime): string {
    d.year + "-" + d.month + "-" + d.day + "T" + d.hour + ":" + d.minute + ":" + d.second
  }

  /**
   * `!isNaN(new Date(iso).getTime())`, as the element ranges of ECMAScript's
   * date-time string format: month 01-12, day 01-31, hour 00-23 (or 24:00:00),
   * minute and second 00-59. Whether a day past the end of its month is
   * rejected differs between engines and is not modelled.
   */
  predicate ValidDateTime(d: DateTime)
    requires WellFormed(d)
  {
    var day, month := DigitsValue(d.day), DigitsValue(d.month);
    var hour, minute, second := DigitsValue(d.hour), DigitsValue(d.minute), DigitsValue(d.second);
    && 1 <= month <= 12 && 1 <= day <= 31
    && ((hour <= 23 && minute <= 59 && second <= 59) || (hour == 24 && minute == 0 && second == 0))
  }

  /** The shape `YYYY-MM-DDTHH:MM:SS`, every other character an ASCII digit. */
  predicate IsIsoTimestamp(t: string) {
    && |t| == 19
    && t[4] == '-' && t[7] == '-' && t[10] == 'T' && t[13] == ':' && t[16] == ':'
    && forall k :: 0 <= k < 19 && k !in {4, 7, 10, 13, 16} ==> IsDigit(t[k])
  }

  /**
   * `formatBRLDateToISO(s)`: null for the empty string, for a string without a
   * `DD/MM/YYYY`, and for a match that is not a valid date; otherwise the ISO
   * rewriting of the leftmost match.
   */
  function FormatBrlDateToIso(s: string): (r: Option<string>)
    ensures r.Some? <==> s != "" && FindDate(s, 0).Some? && ValidDateTime(Groups(s, FindDate(s, 0).value))
  {
    if s == "" then None
    else match FindDate(s, 0)
      case None => None
      case Some(p) =>
        var d := Groups(s, p);
        if ValidDateTime(d) then Some(IsoOf(d)) else None
  }

  /**
   * Wherever the leftmost date sits in the text, a non-null result is that
   * date's digits rearranged, with the time that follows it or midnight.
   */
  lemma FormatAtMatch(s: string, p: nat)
    requires s != "" && DateAt(s, p) && forall k :: 0 <= k < p ==> !DateAt(s, k)
    ensures FormatBrlDateToIso(s).Some? ==>
      (FormatBrlDateToIso(s).value
       == s[p + 6..p + 10] + "-" + s[p + 3..p + 5] + "-" + s[p..p + 2] + "T"
          + (if TimeAt(s, p + 10) then s[p + 11..p + 13] + ":" + s[p + 14..p + 16] + ":" + s[p + 17..p + 19]
             else "00:00:00"))
  {
    assert FindDate(s, 0) == Some(p);
  }

  /**
   * A time written without seconds, `DD/MM/YYYY HH:MM`, does not match the
   * time group: the result is the date at midnight, the hour and minute lost.
   */
  lemma MinutesOnlyIsMidnight(d: DateTime)
    requires WellFormed(d)
    requires ValidDateTime(DateTime(d.day, d.month, d.year, "00", "00", "00"))
    ensures FormatBrlDateToIso(BrlDateOnly(d) + " " + d.hour + ":" + d.minute)
         == Some(IsoOf(DateTime(d.day, d.month, d.year, "00", "00", "00")))
  {
    var date := BrlDateOnly(d);
    var s := date + " " + d.hour + ":" + d.minute;
    BrlDateParts(d);
    assert |s| == 16 && !TimeAt(s, 10);
    assert s[..10] == date;
    assert s[0..2] == date[0..2] && s[3..5] == date[3..5] && s[6..10] == date[6..10];
    assert DateAt(s, 0);
    assert FindDate(s, 0) == Some(0);
  }

  /** Whatever `formatBRLDateToISO` returns has the shape `YYYY-MM-DDTHH:MM:SS`. */
  lemma FormatIsIso(s: string)
    ensures FormatBrlDateToIso(s).Some? ==> IsIsoTimestamp(FormatBrlDateToIso(s).value)
  {
    if FormatBrlDateToIso(s).Some? {
      IsoShape(Groups(s, FindDate(s, 0).value));
    }
  }

  lemma IsoShape(d: DateTime)
    requires WellFormed(d)
    ensures IsIsoTimestamp(IsoOf(d))
  {
    var t := IsoOf(d);
    assert t[..4] == d.year && t[5..7] == d.month && t[8..10] == d.day;
    assert t[11..13] == d.hour && t[14..16] == d.minute && t[17..19] == d.second;
  }

  /** A string holding no `DD/MM/YYYY` anywhere becomes null. */
  lemma NoDateIsNull(s: string)
    requires forall k :: 0 <= k ==> !DateAt(s, k)
    ensures FormatBrlDateToIso(s).None?
  {
  }

  /** `DD/MM/YYYY`, a date with no time part. */
  function BrlDateOnly(d: DateTime): string {
    d.day + "/" + d.month + "/" + d.year
  }

  /** `HH:MM:SS`. */
  function BrlTime(d: DateTime): string {
    d.hour + ":" + d.minute + ":" + d.second
  }

  /** `DD/MM/YYYY HH:MM:SS`, as the export writes a date and time. */
  function BrlOf(d: DateTime): string {
    BrlDateOnly(d) + " " + BrlTime(d)
  }

  /** The date part: it matches at 0 and its three groups are the parts written. */
  lemma BrlDateParts(d: DateTime)
    requires WellFormed(d)
    ensures |BrlDateOnly(d)| == 10 && DateAt(BrlDateOnly(d), 0)
    ensures var s := BrlDateOnly(d); s[0..2] == d.day && s[3..5] == d.month && s[6..10] == d.year
  {
    var s := BrlDateOnly(d);
    assert s[0..2] == d.day && s[3..5] == d.month && s[6..10] == d.year;
  }

  /** The time part: its three groups are the parts written. */
  lemma BrlTimeParts(d: DateTime)
    requires WellFormed(d)
    ensures |BrlTime(d)| == 8 && TwoDigitsAt(BrlTime(d), 0) && TwoDigitsAt(BrlTime(d), 3) && TwoDigitsAt(BrlTime(d), 6)
    ensures var t := BrlTime(d); t[2] == ':' && t[5] == ':'
    ensures var t := BrlTime(d); t[0..2] == d.hour && t[3..5] == d.minute && t[6..8] == d.second
  {
    var t := BrlTime(d);
    assert t[0..2] == d.hour && t[3..5] == d.minute && t[6..8] == d.second;
  }

  /** The leftmost match in `DD/MM/YYYY HH:MM:SS` is at the start, and its groups are the parts written. */
  lemma BrlGroups(d: DateTime)
    requires WellFormed(d)
    ensures DateAt(BrlOf(d), 0) && FindDate(BrlOf(d), 0) == Some(0) && Groups(BrlOf(d), 0) == d
  {
    assert BrlOf(d) == BrlDateOnly(d) + [' '] + BrlTime(d);
    BrlSeparatedGroups(d, ' ');
  }

  /**
   * Either separator the time group allows, a space or `T`: the leftmost match
   * is at the start, and its groups are the parts written.
   */
  lemma BrlSeparatedGroups(d: DateTime, sep: char)
    requires WellFormed(d) && (sep == ' ' || sep == 'T')
    ensures var s := BrlDateOnly(d) + [sep] + BrlTime(d);
      DateAt(s, 0) && FindDate(s, 0) == Some(0) && Groups(s, 0) == d
  {
    var s, date, time := BrlDateOnly(d) + [sep] + BrlTime(d), BrlDateOnly(d), BrlTime(d);
    BrlDateParts(d);
    BrlTimeParts(d);
    assert s[..10] == date;
    assert s[11..] == time;
    assert DateAt(s, 0);
    assert TimeAt(s, 10);
    assert s[0..2] == date[0..2] && s[3..5] == date[3..5] && s[6..10] == date[6..10];
    assert s[11..13] == time[0..2] && s[14..16] == time[3..5] && s[17..19] == time[6..8];
  }

  /**
   * `DD/MM/YYYY HH:MM:SS` splits on "/" into day, month, and the year followed
   * by the time, from which `parseInt` reads the year.
   */
  lemma BrlYearPiece(d: DateTime)
    requires WellFormed(d)
    ensures Includes(BrlOf(d), "/")
    ensures |Split(BrlOf(d), "/")| == 3 && ParseInt(Split(BrlOf(d), "/")[2]) == Some(DigitsValue(d.year))
  {
    var tail := " " + BrlTime(d);
    var last := d.year + tail;
    forall j | 0 <= j < |last| ensures last[j] != '/' {
      if j >= 4 {
        assert last[j] == tail[j - 4];
        if j > 4 { assert tail[j - 4] == BrlTime(d)[j - 5]; }
      }
    }
    assert Excludes(d.day, '/') && Excludes(d.month, '/') && Excludes(last, '/');
    var parts := [d.day, d.month, last];
    assert parts[1..][1..] == [last];
    assert Join(parts[1..], "/") == d.month + "/" + last;
    assert Join(parts, "/") == BrlOf(d);
    SplitJoin(parts, '/');
    ParseIntLeadingDigits(d.year, tail);
  }

  /** `DD/MM/YYYY` splits on "/" into day, month and year. */
  lemma BrlDateOnlyYearPiece(d: DateTime)
    requires WellFormed(d)
    ensures Includes(BrlDateOnly(d), "/")
    ensures |Split(BrlDateOnly(d), "/")| == 3 && ParseInt(Split(BrlDateOnly(d), "/")[2]) == Some(DigitsValue(d.year))
  {
    var parts := [d.day, d.month, d.year];
    assert Excludes(d.day, '/') && Excludes(d.month, '/') && Excludes(d.year, '/');
    assert parts[1..][1..] == [d.year];
    assert Join(parts[1..], "/") == d.month + "/" + d.year;
    assert Join(parts, "/") == BrlDateOnly(d);
    SplitJoin(parts, '/');
    ParseIntLeadingDigits(d.year, []);
    assert d.year + [] == d.year;
  }

  /** A valid date and time written `DD/MM/YYYY HH:MM:SS` comes out as its ISO form. */
  lemma BrlRoundTrip(d: DateTime)
    requires WellFormed(d) && ValidDateTime(d)
    ensures FormatBrlDateToIso(BrlOf(d)) == Some(IsoOf(d))
  {
    BrlGroups(d);
  }

  /** A valid date and time written `DD/MM/YYYYTHH:MM:SS` comes out as its ISO form too. */
  lemma BrlTRoundTrip(d: DateTime)
    requires WellFormed(d) && ValidDateTime(d)
    ensures FormatBrlDateToIso(BrlDateOnly(d) + "T" + BrlTime(d)) == Some(IsoOf(d))
  {
    BrlSeparatedGroups(d, 'T');
  }

  /** A valid date written `DD/MM/YYYY` alone comes out at midnight. */
  lemma BrlDateOnlyMidnight(d: DateTime)
    requires WellFormed(d)
    requires ValidDateTime(DateTime(d.day, d.month, d.year, "00", "00", "00"))
    ensures FormatBrlDateToIso(BrlDateOnly(d)) == Some(IsoOf(DateTime(d.day, d.month, d.year, "00", "00", "00")))
  {
    BrlDateParts(d);
  }

  /** A well-formed date whose month is out of range (13, say) becomes null. */
  lemma BadMonthIsNull(d: DateTime)
    requires WellFormed(d) && DigitsValue(d.month) > 12
    ensures FormatBrlDateToIso(BrlOf(d)).None?
  {
    BrlGroups(d);
  }
}
