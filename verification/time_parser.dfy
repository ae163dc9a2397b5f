/** The typed-time check of the convert button in background.js: trim the
    input, refuse an empty one, short-circuit when both zones are the same,
    find the first match of `/(\d{1,2}):(\d{2})\s*(AM|PM)?/i`, move the hour
    to the 24-hour clock and range-check hour and minute. */
module TimeParser {
  import opened Wrappers
  import opened Text

  // ---------------------------------------------------------------------------
  // The regular expression /(\d{1,2}):(\d{2})\s*(AM|PM)?/i
  // ---------------------------------------------------------------------------

  /** Upper case of an ASCII letter; every other character is left alone.
      Case-insensitive matching without the `u` flag folds only these for `AM` and `PM`. */
  function UpperAscii(c: char): char {
    if 'a' <= c <= 'z' then (c as int - 32) as char else c
  }

  function UpperString(s: string): (r: string)
    ensures |r| == |s|
    ensures forall i | 0 <= i < |s| :: r[i] == UpperAscii(s[i])
  {
    if s == [] then [] else [UpperAscii(s[0])] + UpperString(s[1..])
  }

  /** The text of the three capture groups and the index the match starts at. */
  datatype TimeMatch = TimeMatch(index: nat, hourDigits: string, minuteDigits: string, meridiem: Option<string>)

  /** `\d{width}:\d{2}` occurs at `i`, for an hour of one or two digits. */
  predicate ClockAt(s: string, i: nat, width: nat) {
    (width == 1 || width == 2) && i + width + 3 <= |s|
    && AllDigits(s[i..i + width]) && s[i + width] == ':'
    && IsDigit(s[i + width + 1]) && IsDigit(s[i + width + 2])
  }

  /** The mandatory part of the pattern, `\d{1,2}:\d{2}`, occurs at `i`. */
  predicate PatternAt(s: string, i: nat) {
    ClockAt(s, i, 2) || ClockAt(s, i, 1)
  }

  /** `AM` or `PM` in either case at `j`. */
  predicate MeridiemMarkAt(s: string, j: nat) {
    j + 2 <= |s|
    && (UpperAscii(s[j]) == 'A' || UpperAscii(s[j]) == 'P')
    && UpperAscii(s[j + 1]) == 'M'
  }

  /** End of the longest run of white space starting at `k`: what the greedy `\s*` consumes. */
  function SkipSpaces(s: string, k: nat): (j: nat)
    requires k <= |s|
    ensures k <= j <= |s|
    ensures forall i | k <= i < j :: IsSpace(s[i])
    ensures j < |s| ==> !IsSpace(s[j])
    decreases |s| - k
  {
    if k < |s| && IsSpace(s[k]) then SkipSpaces(s, k + 1) else k
  }

  /** The capture groups when `\d{width}:\d{2}` was found at `i`: the optional group is
      tried right after all the white space that follows the minutes. */
  function GroupsAt(s: string, i: nat, width: nat): (m: TimeMatch)
    requires ClockAt(s, i, width)
    ensures m.index == i && m.hourDigits == s[i..i + width]
    ensures |m.minuteDigits| == 2 && m.minuteDigits == s[i + width + 1..i + width + 3]
    ensures AllDigits(m.hourDigits) && AllDigits(m.minuteDigits)
    ensures m.meridiem.Some? ==> UpperString(m.meridiem.value) in {"AM", "PM"}
    ensures var j := SkipSpaces(s, i + width + 3);
            (m.meridiem.Some? <==> MeridiemMarkAt(s, j))
            && (m.meridiem.Some? ==> m.meridiem.value == s[j..j + 2])
  {
    var j := SkipSpaces(s, i + width + 3);
    var mark := if MeridiemMarkAt(s, j) then Some(s[j..j + 2]) else None;
    assert mark.Some? ==> UpperString(mark.value) == [UpperAscii(s[j]), UpperAscii(s[j + 1])];
    TimeMatch(i, s[i..i + width], s[i + width + 1..i + width + 3], mark)
  }

  /** What the engine finds when it tries the pattern at `i`: two hour digits are tried
      before one, and nothing after the minutes can make the attempt fail. */
  function MatchAt(s: string, i: nat): (r: Option<TimeMatch>)
    ensures r.Some? <==> PatternAt(s, i)
    ensures r.Some? ==> r.value.index == i && |r.value.minuteDigits| == 2
    ensures r.Some? ==> |r.value.hourDigits| == (if ClockAt(s, i, 2) then 2 else 1)
  {
    if ClockAt(s, i, 2) then Some(GroupsAt(s, i, 2))
    else if ClockAt(s, i, 1) then Some(GroupsAt(s, i, 1))
    else None
  }

  /** The leftmost match at or after `i`. */
  function FindFrom(s: string, i: nat): (r: Option<TimeMatch>)
    requires i <= |s|
    ensures r.None? <==> forall k | i <= k < |s| :: !PatternAt(s, k)
    ensures r.Some? ==> i <= r.value.index < |s| && PatternAt(s, r.value.index)
    ensures r.Some? ==> forall k | i <= k < r.value.index :: !PatternAt(s, k)
    ensures r.Some? ==> r == MatchAt(s, r.value.index)
    decreases |s| - i
  {
    if i == |s| then None
    else
      var m := MatchAt(s, i);
      if m.Some? then m else FindFrom(s, i + 1)
  }

  /** `s.match(timeRegex)`: the pattern is not anchored, so the first occurrence anywhere counts. */
  function FindTime(s: string): (r: Option<TimeMatch>)
    ensures r.None? <==> forall k | 0 <= k < |s| :: !PatternAt(s, k)
    ensures r.Some? ==> PatternAt(s, r.value.index) && forall k | 0 <= k < r.value.index :: !PatternAt(s, k)
    ensures r.Some? ==> r == MatchAt(s, r.value.index)
  {
    FindFrom(s, 0)
  }

  // ---------------------------------------------------------------------------
  // Meridiem and range
  // ---------------------------------------------------------------------------

  datatype Meridiem = NoMeridiem | AM | PM

  /** `match[3] ? match[3].toUpperCase() : ''` compared with 'AM' and 'PM'. */
  function MeridiemOf(group: Option<string>): (r: Meridiem)
    ensures r == PM <==> group.Some? && UpperString(group.value) == "PM"
    ensures r == AM <==> group.Some? && UpperString(group.value) == "AM"
  {
    if group.None? then NoMeridiem
    else if UpperString(group.value) == "PM" then PM
    else if UpperString(group.value) == "AM" then AM
    else NoMeridiem
  }

  /** The conventional 12-hour reading of an hour of the day. */
  function To12Hour(h: nat): (r: (nat, Meridiem))
    requires h < 24
    ensures 1 <= r.0 <= 12 && r.1 != NoMeridiem
  {
    (if h % 12 == 0 then 12 else h % 12, if h < 12 then AM else PM)
  }

  /** The hour after the AM/PM adjustment. On a proper 12-hour reading it is the inverse of
      `To12Hour`; without a marker, or with an hour outside 1..12, the marker changes nothing
      except that `0 PM` becomes 12. */
  function To24Hour(hours: nat, m: Meridiem): (r: nat)
    ensures 1 <= hours <= 12 && m != NoMeridiem ==> r < 24 && To12Hour(r) == (hours, m)
    ensures m == NoMeridiem ==> r == hours
    ensures hours > 12 ==> r == hours
    ensures hours == 0 ==> r == (if m == PM then 12 else 0)
  {
    if m == PM && hours < 12 then hours + 12
    else if m == AM && hours == 12 then 0
    else hours
  }

  /** Every hour of the day is reached from its 12-hour reading. */
  lemma TwelveHourRoundTrip(h: nat)
    requires h < 24
    ensures To24Hour(To12Hour(h).0, To12Hour(h).1) == h
  {
  }

  /** The 24-hour hour and the minute the match denotes. */
  function Reading(m: TimeMatch): (r: (nat, nat))
    requires AllDigits(m.hourDigits) && AllDigits(m.minuteDigits)
    ensures r.1 == DigitsValue(m.minuteDigits)
    ensures var h := DigitsValue(m.hourDigits); var mark := MeridiemOf(m.meridiem);
            (mark == NoMeridiem || h > 12 ==> r.0 == h)
            && (1 <= h <= 12 && mark != NoMeridiem ==> r.0 < 24 && To12Hour(r.0) == (h, mark))
            && (h == 0 ==> r.0 == (if mark == PM then 12 else 0))
  {
    (To24Hour(DigitsValue(m.hourDigits), MeridiemOf(m.meridiem)), DigitsValue(m.minuteDigits))
  }

  predicate InRange(hour: nat, minute: nat) {
    hour <= 23 && minute <= 59
  }

  // ---------------------------------------------------------------------------
  // The validation sequence of the click handler
  // ---------------------------------------------------------------------------

  datatype Outcome = Empty | SameZone | BadFormat | BadValues | Ok(hour: nat, minute: nat)

  /** The early returns of the convert handler, in their order: empty input, same zones,
      no match, values out of range; otherwise the hour and minute to convert. */
  function ParseTypedTime(raw: string, sourceTz: string, targetTz: string): (r: Outcome)
    ensures r == Empty <==> forall i | 0 <= i < |raw| :: IsSpace(raw[i])
    ensures r == SameZone <==> Trim(raw) != [] && sourceTz == targetTz
    ensures r == BadFormat <==>
              Trim(raw) != [] && sourceTz != targetTz
              && forall k | 0 <= k < |Trim(raw)| :: !PatternAt(Trim(raw), k)
    ensures r.Ok? ==> InRange(r.hour, r.minute)
    ensures r.Ok? || r == BadValues ==>
              var m := FindTime(Trim(raw));
              m.Some? && PatternAt(Trim(raw), m.value.index)
              && (r.Ok? <==> InRange(Reading(m.value).0, Reading(m.value).1))
              && (r.Ok? ==> (r.hour, r.minute) == Reading(m.value))
  {
    var input := Trim(raw);
    if input == [] then Empty
    else if sourceTz == targetTz then SameZone
    else match FindTime(input)
      case None => BadFormat
      case Some(m) =>
        var (hour, minute) := Reading(m);
        if !InRange(hour, minute) then BadValues else Ok(hour, minute)
  }

  // ---------------------------------------------------------------------------
  // Worked inputs
  // ---------------------------------------------------------------------------

  /** A string that starts and ends with something other than white space is its own trim. */
  lemma TrimmedAlready(s: string)
    requires s != [] && !IsSpace(s[0]) && !IsSpace(s[|s| - 1])
    ensures Trim(s) == s
  {
    assert LeadingSpaces(s) == 0;
    assert TrailingSpaces(s) == 0;
  }

  /** The match found is the one at the first position where the pattern occurs. */
  lemma FirstMatch(s: string, i: nat)
    requires PatternAt(s, i) && forall k | 0 <= k < i :: !PatternAt(s, k)
    ensures FindTime(s) == MatchAt(s, i)
  {
    assert i < |s|;
    var j := FindTime(s).value.index;
    assert !(j < i);
  }

  /** Wherever `\d{1,2}:\d{2}` occurs in the typed text, even amid surrounding white space, the
      input is never refused as badly formed once the zones differ. */
  lemma PatternAnywhereIsNotBadFormat(raw: string, sourceTz: string, targetTz: string, k: nat)
    requires sourceTz != targetTz && PatternAt(raw, k)
    ensures ParseTypedTime(raw, sourceTz, targetTz) != BadFormat
    ensures ParseTypedTime(raw, sourceTz, targetTz) != Empty
  {
    var width := if ClockAt(raw, k, 2) then 2 else 1;
    assert !IsSpace(raw[k]) && !IsSpace(raw[k + width + 2]);
    var r := Trim(raw);
    var a :| TrimmedAt(raw, a, r);
    ClockInSlice(raw, a, r, k, width);
    assert PatternAt(r, k - a);
  }

  /** A clock that lies inside a slice of the text is also found in the slice, shifted by its start. */
  lemma ClockInSlice(s: string, a: int, r: string, k: nat, width: nat)
    requires SliceAt(s, a, r) && a <= k && k + width + 3 <= a + |r|
    requires ClockAt(s, k, width)
    ensures ClockAt(r, k - a, width)
  {
    var i := k - a;
    assert forall j | 0 <= j < |r| :: r[j] == s[a + j];
    forall j | i <= j < i + width
      ensures IsDigit(r[j])
    {
      assert IsDigit(s[k..k + width][j - i]);
    }
  }

  /** Once the match of a trimmed input with distinct zones is known, the outcome is its reading,
      range-checked. */
  lemma OutcomeOfMatch(s: string, sourceTz: string, targetTz: string, m: TimeMatch)
    requires s != [] && !IsSpace(s[0]) && !IsSpace(s[|s| - 1])
    requires sourceTz != targetTz && FindTime(s) == Some(m)
    ensures AllDigits(m.hourDigits) && AllDigits(m.minuteDigits)
    ensures ParseTypedTime(s, sourceTz, targetTz)
         == if InRange(Reading(m).0, Reading(m).1) then Ok(Reading(m).0, Reading(m).1) else BadValues
  {
    TrimmedAlready(s);
  }

  /** `12:00 AM` is midnight. */
  lemma TwelveAmIsMidnight()
    ensures ParseTypedTime("12:00 AM", "UTC", "Asia/Tokyo") == Ok(0, 0)
  {
    TwelveAmIsMidnightFound();
    OutcomeOfMatch("12:00 AM", "UTC", "Asia/Tokyo", TimeMatch(0, "12", "00", Some("AM")));
  }

  /** What the regular expression finds in `12:00 AM`, and what it reads as. */
  lemma TwelveAmIsMidnightFound()
    ensures FindTime("12:00 AM") == Some(TimeMatch(0, "12", "00", Some("AM")))
    ensures Reading(TimeMatch(0, "12", "00", Some("AM"))) == (0, 0)
  {
    var s := "12:00 AM";
    assert ClockAt(s, 0, 2);
    FirstMatch(s, 0);
    assert SkipSpaces(s, 6) == 6;
    assert SkipSpaces(s, 5) == 6;
    assert MeridiemMarkAt(s, 6);
    assert s[0..2] == "12" && s[3..5] == "00" && s[6..8] == "AM";
    assert UpperString("AM") == "AM";
    assert DigitsValue("12") == 12 && DigitsValue("00") == 0;
  }

  /** `12:00 PM` is noon. */
  lemma TwelvePmIsNoon()
    ensures ParseTypedTime("12:00 PM", "UTC", "Asia/Tokyo") == Ok(12, 0)
  {
    TwelvePmIsNoonFound();
    OutcomeOfMatch("12:00 PM", "UTC", "Asia/Tokyo", TimeMatch(0, "12", "00", Some("PM")));
  }

  /** What the regular expression finds in `12:00 PM`, and what it reads as. */
  lemma TwelvePmIsNoonFound()
    ensures FindTime("12:00 PM") == Some(TimeMatch(0, "12", "00", Some("PM")))
    ensures Reading(TimeMatch(0, "12", "00", Some("PM"))) == (12, 0)
  {
    var s := "12:00 PM";
    assert ClockAt(s, 0, 2);
    FirstMatch(s, 0);
    assert SkipSpaces(s, 6) == 6;
    assert SkipSpaces(s, 5) == 6;
    assert MeridiemMarkAt(s, 6);
    assert s[0..2] == "12" && s[3..5] == "00" && s[6..8] == "PM";
    assert UpperString("PM") == "PM";
    assert DigitsValue("12") == 12 && DigitsValue("00") == 0;
  }

  /** `1:00 PM` is 13:00. */
  lemma OnePmIsThirteen()
    ensures ParseTypedTime("1:00 PM", "UTC", "Asia/Tokyo") == Ok(13, 0)
  {
    OnePmIsThirteenFound();
    OutcomeOfMatch("1:00 PM", "UTC", "Asia/Tokyo", TimeMatch(0, "1", "00", Some("PM")));
  }

  /** What the regular expression finds in `1:00 PM`, and what it reads as. */
  lemma OnePmIsThirteenFound()
    ensures FindTime("1:00 PM") == Some(TimeMatch(0, "1", "00", Some("PM")))
    ensures Reading(TimeMatch(0, "1", "00", Some("PM"))) == (13, 0)
  {
    var s := "1:00 PM";
    assert ClockAt(s, 0, 1) && !ClockAt(s, 0, 2);
    FirstMatch(s, 0);
    assert SkipSpaces(s, 5) == 5;
    assert SkipSpaces(s, 4) == 5;
    assert MeridiemMarkAt(s, 5);
    assert s[0..1] == "1" && s[2..4] == "00" && s[5..7] == "PM";
    assert UpperString("PM") == "PM";
    assert DigitsValue("1") == 1 && DigitsValue("00") == 0;
  }

  /** An `AM` after an hour above 12 changes nothing: `13:00 AM` is 13:00. */
  lemma AmIgnoredAfterTwelve()
    ensures ParseTypedTime("13:00 AM", "UTC", "Asia/Tokyo") == Ok(13, 0)
  {
    AmIgnoredAfterTwelveFound();
    OutcomeOfMatch("13:00 AM", "UTC", "Asia/Tokyo", TimeMatch(0, "13", "00", Some("AM")));
  }

  /** What the regular expression finds in `13:00 AM`, and what it reads as. */
  lemma AmIgnoredAfterTwelveFound()
    ensures FindTime("13:00 AM") == Some(TimeMatch(0, "13", "00", Some("AM")))
    ensures Reading(TimeMatch(0, "13", "00", Some("AM"))) == (13, 0)
  {
    var s := "13:00 AM";
    assert ClockAt(s, 0, 2);
    FirstMatch(s, 0);
    assert SkipSpaces(s, 6) == 6;
    assert SkipSpaces(s, 5) == 6;
    assert MeridiemMarkAt(s, 6);
    assert s[0..2] == "13" && s[3..5] == "00" && s[6..8] == "AM";
    assert UpperString("AM") == "AM";
    assert DigitsValue("13") == 13 && DigitsValue("00") == 0;
  }

  /** `PM` still adds 12 to hour 0: `0:00 PM` is 12:00. */
  lemma ZeroPmIsNoon()
    ensures ParseTypedTime("0:00 PM", "UTC", "Asia/Tokyo") == Ok(12, 0)
  {
    ZeroPmIsNoonFound();
    OutcomeOfMatch("0:00 PM", "UTC", "Asia/Tokyo", TimeMatch(0, "0", "00", Some("PM")));
  }

  /** What the regular expression finds in `0:00 PM`, and what it reads as. */
  lemma ZeroPmIsNoonFound()
    ensures FindTime("0:00 PM") == Some(TimeMatch(0, "0", "00", Some("PM")))
    ensures Reading(TimeMatch(0, "0", "00", Some("PM"))) == (12, 0)
  {
    var s := "0:00 PM";
    assert ClockAt(s, 0, 1) && !ClockAt(s, 0, 2);
    FirstMatch(s, 0);
    assert SkipSpaces(s, 5) == 5;
    assert SkipSpaces(s, 4) == 5;
    assert MeridiemMarkAt(s, 5);
    assert s[0..1] == "0" && s[2..4] == "00" && s[5..7] == "PM";
    assert UpperString("PM") == "PM";
    assert DigitsValue("0") == 0 && DigitsValue("00") == 0;
  }

  /** The pattern is not anchored: `at 9:05pm` is 21:05. */
  lemma TimeInsideText()
    ensures ParseTypedTime("at 9:05pm", "UTC", "Asia/Tokyo") == Ok(21, 5)
  {
    TimeInsideTextFound();
    OutcomeOfMatch("at 9:05pm", "UTC", "Asia/Tokyo", TimeMatch(3, "9", "05", Some("pm")));
  }

  /** What the regular expression finds in `at 9:05pm`, and what it reads as. */
  lemma TimeInsideTextFound()
    ensures FindTime("at 9:05pm") == Some(TimeMatch(3, "9", "05", Some("pm")))
    ensures Reading(TimeMatch(3, "9", "05", Some("pm"))) == (21, 5)
  {
    var s := "at 9:05pm";
    assert !PatternAt(s, 0);
    assert !PatternAt(s, 1);
    assert !PatternAt(s, 2);
    assert ClockAt(s, 3, 1) && !ClockAt(s, 3, 2);
    FirstMatch(s, 3);
    assert SkipSpaces(s, 7) == 7;
    assert MeridiemMarkAt(s, 7);
    assert s[3..4] == "9" && s[5..7] == "05" && s[7..9] == "pm";
    assert UpperString("pm") == "PM";
    assert DigitsValue("9") == 9 && DigitsValue("05") == 5;
  }

  /** A run of three hour digits keeps its last two: `123:45` is 23:45. */
  lemma ThreeDigitHour()
    ensures ParseTypedTime("123:45", "UTC", "Asia/Tokyo") == Ok(23, 45)
  {
    ThreeDigitHourFound();
    OutcomeOfMatch("123:45", "UTC", "Asia/Tokyo", TimeMatch(1, "23", "45", None));
  }

  /** What the regular expression finds in `123:45`, and what it reads as. */
  lemma ThreeDigitHourFound()
    ensures FindTime("123:45") == Some(TimeMatch(1, "23", "45", None))
    ensures Reading(TimeMatch(1, "23", "45", None)) == (23, 45)
  {
    var s := "123:45";
    assert !PatternAt(s, 0);
    assert ClockAt(s, 1, 2);
    FirstMatch(s, 1);
    assert SkipSpaces(s, 6) == 6;
    assert !MeridiemMarkAt(s, 6);
    assert s[1..3] == "23" && s[4..6] == "45";
    assert DigitsValue("23") == 23 && DigitsValue("45") == 45;
  }

  /** A third minute digit is ignored: `1:234` is 01:23. */
  lemma ThreeDigitMinute()
    ensures ParseTypedTime("1:234", "UTC", "Asia/Tokyo") == Ok(1, 23)
  {
    ThreeDigitMinuteFound();
    OutcomeOfMatch("1:234", "UTC", "Asia/Tokyo", TimeMatch(0, "1", "23", None));
  }

  /** What the regular expression finds in `1:234`, and what it reads as. */
  lemma ThreeDigitMinuteFound()
    ensures FindTime("1:234") == Some(TimeMatch(0, "1", "23", None))
    ensures Reading(TimeMatch(0, "1", "23", None)) == (1, 23)
  {
    var s := "1:234";
    assert ClockAt(s, 0, 1) && !ClockAt(s, 0, 2);
    FirstMatch(s, 0);
    assert SkipSpaces(s, 4) == 4;
    assert !MeridiemMarkAt(s, 4);
    assert s[0..1] == "1" && s[2..4] == "23";
    assert DigitsValue("1") == 1 && DigitsValue("23") == 23;
  }

  /** `25:00` matches but is out of range. */
  lemma HourTooLarge()
    ensures ParseTypedTime("25:00", "UTC", "Asia/Tokyo") == BadValues
  {
    HourTooLargeFound();
    OutcomeOfMatch("25:00", "UTC", "Asia/Tokyo", TimeMatch(0, "25", "00", None));
  }

  /** What the regular expression finds in `25:00`, and what it reads as. */
  lemma HourTooLargeFound()
    ensures FindTime("25:00") == Some(TimeMatch(0, "25", "00", None))
    ensures Reading(TimeMatch(0, "25", "00", None)) == (25, 0)
  {
    var s := "25:00";
    assert ClockAt(s, 0, 2);
    FirstMatch(s, 0);
    assert SkipSpaces(s, 5) == 5;
    assert !MeridiemMarkAt(s, 5);
    assert s[0..2] == "25" && s[3..5] == "00";
    assert DigitsValue("25") == 25 && DigitsValue("00") == 0;
  }

  /** `9:60` matches but is out of range. */
  lemma MinuteTooLarge()
    ensures ParseTypedTime("9:60", "UTC", "Asia/Tokyo") == BadValues
  {
    MinuteTooLargeFound();
    OutcomeOfMatch("9:60", "UTC", "Asia/Tokyo", TimeMatch(0, "9", "60", None));
  }

  /** What the regular expression finds in `9:60`, and what it reads as. */
  lemma MinuteTooLargeFound()
    ensures FindTime("9:60") == Some(TimeMatch(0, "9", "60", None))
    ensures Reading(TimeMatch(0, "9", "60", None)) == (9, 60)
  {
    var s := "9:60";
    assert ClockAt(s, 0, 1) && !ClockAt(s, 0, 2);
    FirstMatch(s, 0);
    assert SkipSpaces(s, 4) == 4;
    assert !MeridiemMarkAt(s, 4);
    assert s[0..1] == "9" && s[2..4] == "60";
    assert DigitsValue("9") == 9 && DigitsValue("60") == 60;
  }

  /** Input without the pattern is refused as badly formed. */
  lemma NoClockIsBadFormat()
    ensures ParseTypedTime("abc", "UTC", "Asia/Tokyo") == BadFormat
  {
    TrimmedAlready("abc");
  }

  /** Input of white space only is refused as empty. */
  lemma BlankIsEmpty()
    ensures ParseTypedTime(" \t ", "UTC", "Asia/Tokyo") == Empty
  {
  }

  /** A well-formed time is not even looked at when the zones are the same. */
  lemma SameZoneBeforeMatching()
    ensures ParseTypedTime("14:30", "UTC", "UTC") == SameZone
  {
    TrimmedAlready("14:30");
  }
}
