/** The overlay content_script.js injects into a page: its show/hide toggle when the
    script runs again, the conversion its `change` listeners run, and the value the
    date-and-time field starts with.

    The platform parts are parameters. `parseDate(s)` is `new Date(s).getTime()`, or
    None when that is NaN; `format(zone, t)` is `toLocaleString('en-US', {timeZone: zone, ...})`
    of the instant `t`, which fails with an error message when the zone is not accepted. */
module OverlayPanel {
  import opened Wrappers
  import opened Text
  import ZoneSelects

  // ---------------------------------------------------------------------------
  // Running the script on a page that already has the overlay
  // ---------------------------------------------------------------------------

  /** The inline `display` the overlay gets when the script finds it already there. */
  function ToggledDisplay(display: string): (r: string)
    ensures r == "none" || r == "block"
    ensures r == "block" <==> display == "none"
  {
    if display == "none" then "block" else "none"
  }

  /** From either of the two values the toggle produces, two toggles restore it. */
  lemma ToggleTwiceRestores(display: string)
    requires display == "none" || display == "block"
    ensures ToggledDisplay(ToggledDisplay(display)) == display
  {
  }

  /** Whatever inline value the overlay had, it is shown again after at most two runs
      of the script and hidden again after at most two. */
  lemma ToggleReachesBoth(display: string)
    ensures ToggledDisplay(display) == "block" || ToggledDisplay(ToggledDisplay(display)) == "block"
    ensures ToggledDisplay(display) == "none" || ToggledDisplay(ToggledDisplay(display)) == "none"
  {
  }

  /** The page as the script sees it: whether the overlay element is in the document,
      its inline `display`, and how many overlays the script has built on it. */
  class Page {
    var overlayPresent: bool
    var display: string
    var overlaysCreated: nat

    constructor ()
      ensures !overlayPresent && display == "" && overlaysCreated == 0
    {
      overlayPresent := false;
      display := "";
      overlaysCreated := 0;
    }

    /** One run of the script: an existing overlay is only toggled, otherwise a new one is
        built with no inline `display` (its classes lay it out as a flex box). */
    method RunContentScript()
      modifies this
      ensures overlayPresent
      ensures old(overlayPresent) ==>
                display == ToggledDisplay(old(display)) && overlaysCreated == old(overlaysCreated)
      ensures !old(overlayPresent) ==> display == "" && overlaysCreated == old(overlaysCreated) + 1
    {
      if overlayPresent {
        display := ToggledDisplay(display);
        return;
      }
      overlayPresent := true;
      display := "";
      overlaysCreated := overlaysCreated + 1;
    }

    /** The close button: the overlay is removed from the document. */
    method Close()
      modifies this
      ensures !overlayPresent
      ensures display == old(display) && overlaysCreated == old(overlaysCreated)
    {
      overlayPresent := false;
    }

    /** A scenario, not a function of the script: running the script twice on a page whose
        overlay is shown or hidden by the toggle leaves it as it was, and builds no second overlay. */
    method RunTwice()
      requires overlayPresent && (display == "none" || display == "block")
      modifies this
      ensures overlayPresent && display == old(display) && overlaysCreated == old(overlaysCreated)
    {
      RunContentScript();
      RunContentScript();
      ToggleTwiceRestores(old(display));
    }
  }

  // ---------------------------------------------------------------------------
  // convertTime
  // ---------------------------------------------------------------------------

  /** The results area: its text, and whether it is styled as an error (red) or not (blue). */
  datatype Display = Display(text: string, isError: bool)

  const EnterDateMessage := "Please enter a date and time."
  const InvalidDateMessage := "Invalid date and time input."

  /** The text of a caught error. */
  function ErrorText(message: string): (r: string)
    ensures |r| == 7 + |message| && r[..7] == "Error: " && r[7..] == message
  {
    "Error: " + message
  }

  /** The text of a conversion: the formatted time and the target zone with spaces for underscores. */
  function ConvertedText(formatted: string, toZone: string): (r: string)
    ensures var n := |"Converted Time: "|;
            |r| == n + |formatted| + |toZone| + 3
            && r[..n] == "Converted Time: " && r[n..n + |formatted|] == formatted
            && r[n + |formatted|..n + |formatted| + 2] == " (" && r[|r| - 1] == ')'
            && r[n + |formatted| + 2..|r| - 1] == ZoneSelects.ToLabel(toZone)
  {
    "Converted Time: " + formatted + " (" + ZoneSelects.ToLabel(toZone) + ")"
  }

  /** `convertTime()`, given the field's value and the two lists' values. */
  function ConvertTime(dateTimeString: string, fromZone: string, toZone: string,
                       parseDate: string -> Option<int>,
                       format: (string, int) -> Result<string, string>): (r: Display)
    ensures dateTimeString == [] ==> r == Display(EnterDateMessage, true)
    ensures dateTimeString != [] && parseDate(dateTimeString).None? ==>
              r == Display(ErrorText(InvalidDateMessage), true)
    ensures dateTimeString != [] && parseDate(dateTimeString).Some? ==>
              var result := format(toZone, parseDate(dateTimeString).value);
              (result.Failure? ==> r == Display(ErrorText(result.error), true))
              && (result.Success? ==> r == Display(ConvertedText(result.value, toZone), false))
    ensures !r.isError <==>
              dateTimeString != [] && parseDate(dateTimeString).Some?
              && format(toZone, parseDate(dateTimeString).value).Success?
  {
    if dateTimeString == [] then Display(EnterDateMessage, true)
    else
      match parseDate(dateTimeString)
      case None => Display(ErrorText(InvalidDateMessage), true)
      case Some(t) =>
        match format(toZone, t)
        case Failure(e) => Display(ErrorText(e), true)
        case Success(text) => Display(ConvertedText(text, toZone), false)
  }

  /** An empty field is reported without asking the platform anything: the result is the
      same whatever the zones, the date parser and the formatter. */
  lemma EmptyFieldNeverConverts(from1: string, to1: string, from2: string, to2: string,
                                parse1: string -> Option<int>, parse2: string -> Option<int>,
                                format1: (string, int) -> Result<string, string>,
                                format2: (string, int) -> Result<string, string>)
    ensures ConvertTime("", from1, to1, parse1, format1)
         == ConvertTime("", from2, to2, parse2, format2)
         == Display(EnterDateMessage, true)
  {
  }

  /** The "From" zone plays no part in the conversion: the instant is read in the page's own
      zone and only shown in the "To" zone. */
  lemma FromZoneIgnored(dateTimeString: string, from1: string, from2: string, toZone: string,
                        parseDate: string -> Option<int>,
                        format: (string, int) -> Result<string, string>)
    ensures ConvertTime(dateTimeString, from1, toZone, parseDate, format)
         == ConvertTime(dateTimeString, from2, toZone, parseDate, format)
  {
  }

  /** For a zone id without spaces, the zone named at the end of a successful result is
      recovered from the text in parentheses by turning its spaces back into underscores. */
  lemma ConvertedTextNamesZone(formatted: string, toZone: string)
    requires ' ' !in toZone
    ensures var t := ConvertedText(formatted, toZone);
            var zoneText := t[|"Converted Time: "| + |formatted| + 2..|t| - 1];
            ReplaceChar(zoneText, ' ', '_') == toZone
  {
    var zoneText := ZoneSelects.ToLabel(toZone);
    var t := ConvertedText(formatted, toZone);
    assert t == "Converted Time: " + formatted + " (" + zoneText + ")";
    assert t[|"Converted Time: "| + |formatted| + 2..|t| - 1] == zoneText;
    ZoneSelects.LabelsOfSpacelessZone(toZone);
  }

  // ---------------------------------------------------------------------------
  // The starting value of the date-and-time field
  // ---------------------------------------------------------------------------

  /** The text of a `datetime-local` field: `year-month-dayThours:minutes` from the written fields. */
  function DateTimeLocalText(year: string, month: string, day: string, hours: string, minutes: string): string {
    year + "-" + month + "-" + day + "T" + hours + ":" + minutes
  }

  /** `${year}-${month}-${day}T${hours}:${minutes}` from the local calendar fields of now,
      `monthIndex` counting from 0 as `getMonth()` does. */
  function DefaultDateTimeValue(year: int, monthIndex: nat, day: nat, hours: nat, minutes: nat): (r: string)
    ensures var y := IntToString(year);
            |r| >= |y| + 12 && r[..|y|] == y && r[|y|] == '-'
  {
    DateTimeLocalText(IntToString(year), TwoDigits(monthIndex + 1), TwoDigits(day),
                      TwoDigits(hours), TwoDigits(minutes))
  }

  /** `s` holds, from position `i`, exactly two digits that read as `n`. */
  predicate TwoDigitFieldAt(s: string, i: nat, n: nat) {
    i + 2 <= |s| && AllDigits(s[i..i + 2]) && DigitsValue(s[i..i + 2]) == n
  }

  /** `field` is two digits that read as `n`. */
  predicate IsTwoDigits(field: string, n: nat) {
    |field| == 2 && AllDigits(field) && DigitsValue(field) == n
  }

  /** `s` is the year's text `y` followed by `-MM-DDTHH:MM`: fixed separators and four
      two-digit fields reading `month`, `day`, `hours` and `minutes`. */
  predicate DateTimeShape(s: string, y: string, month: nat, day: nat, hours: nat, minutes: nat) {
    var n := |y|;
    |s| == n + 12 && s[..n] == y
    && s[n] == '-' && s[n + 3] == '-' && s[n + 6] == 'T' && s[n + 9] == ':'
    && TwoDigitFieldAt(s, n + 1, month) && TwoDigitFieldAt(s, n + 4, day)
    && TwoDigitFieldAt(s, n + 7, hours) && TwoDigitFieldAt(s, n + 10, minutes)
  }

  /** For the calendar fields a date has, the value is the year's digits followed by
      `-MM-DDTHH:MM`, the four fields reading back as the month (counted from 1), the day,
      the hour and the minute. */
  lemma DefaultDateTimeShape(year: int, monthIndex: nat, day: nat, hours: nat, minutes: nat)
    requires monthIndex < 12 && 1 <= day <= 31 && hours < 24 && minutes < 60
    ensures DateTimeShape(DefaultDateTimeValue(year, monthIndex, day, hours, minutes),
                          IntToString(year), monthIndex + 1, day, hours, minutes)
  {
    TwoDigitsRoundTrip(monthIndex + 1);
    TwoDigitsRoundTrip(day);
    TwoDigitsRoundTrip(hours);
    TwoDigitsRoundTrip(minutes);
    TextLayout(IntToString(year), TwoDigits(monthIndex + 1), TwoDigits(day), TwoDigits(hours), TwoDigits(minutes),
               monthIndex + 1, day, hours, minutes);
  }

  /** Where the pieces of a `datetime-local` text sit, when each field after the year is two digits. */
  lemma TextLayout(y: string, mo: string, d: string, h: string, mi: string,
                   month: nat, day: nat, hours: nat, minutes: nat)
    requires IsTwoDigits(mo, month) && IsTwoDigits(d, day) && IsTwoDigits(h, hours) && IsTwoDigits(mi, minutes)
    ensures DateTimeShape(DateTimeLocalText(y, mo, d, h, mi), y, month, day, hours, minutes)
  {
    var s := DateTimeLocalText(y, mo, d, h, mi);
    var n := |y|;
    assert s[n + 1..n + 3] == mo && s[n + 4..n + 6] == d;
    assert s[n + 7..n + 9] == h && s[n + 10..n + 12] == mi;
  }
}
