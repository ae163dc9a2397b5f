/** The overlay that background.js injects: the zone pre-selected in its "From"
    list, and what the results area shows after the Convert button is clicked.

    The platform parts are parameters. `now` is the instant `new Date()` returns,
    in milliseconds; `setHours(d, w)` is `Date.prototype.setHours`: the instant on
    the same calendar day as `d` in the SYSTEM's local zone whose local clock reads
    `w`; `format(zone, t)` is `new Intl.DateTimeFormat('en-US', {..., timeZone: zone}).format(t)`,
    which fails with an error message when the zone is not accepted. */
module ConvertButton {
  import opened Wrappers
  import opened Text
  import opened TimeParser

  /** The zone ids offered in both lists of this overlay, in their order. */
  const Timezones: seq<string> := [
    "America/New_York", "America/Chicago", "America/Los_Angeles", "Europe/London",
    "Europe/Berlin", "Asia/Tokyo", "Asia/Shanghai", "Australia/Sydney", "UTC",
    "Asia/Kolkata", "Asia/Dubai", "Europe/Paris", "Canada/Atlantic", "Mexico/BajaNorte"
  ]

  // ---------------------------------------------------------------------------
  // Pre-selection of the source zone
  // ---------------------------------------------------------------------------

  /** `tz` contains the part of `local` before its first '/', or the part after it.
      A zone without '/' has no second part (the script then searches for "undefined",
      which no entry of the list contains). */
  predicate SharesSegment(tz: string, local: string): (b: bool)
    ensures '/' !in local ==> (b <==> Contains(tz, local))
    ensures '/' in local ==>
              var i := IndexOf(local, '/');
              var rest := local[i + 1..];
              var second := if '/' in rest then rest[..IndexOf(rest, '/')] else rest;
              (b <==> Contains(tz, local[..i]) || Contains(tz, second))
  {
    var parts := Split(local, '/');
    assert '/' in local ==> parts[0] == local[..IndexOf(local, '/')] && |parts| > 1
                            && parts[1] == Split(local[IndexOf(local, '/') + 1..], '/')[0];
    Contains(tz, parts[0]) || (|parts| > 1 && Contains(tz, parts[1]))
  }

  /** The index, from position `i` on, of the entry `timezones.find(...)` returns for the segment test above. */
  function FirstSharing(zones: seq<string>, local: string, i: nat): (r: Option<nat>)
    requires i <= |zones|
    ensures r.None? <==> forall k | i <= k < |zones| :: !SharesSegment(zones[k], local)
    ensures r.Some? ==> i <= r.value < |zones| && SharesSegment(zones[r.value], local)
    ensures r.Some? ==> forall k | i <= k < r.value :: !SharesSegment(zones[k], local)
    decreases |zones| - i
  {
    if i == |zones| then None
    else if SharesSegment(zones[i], local) then Some(i)
    else FirstSharing(zones, local, i + 1)
  }

  /** The zone the "From" list starts on. `detected` is the system zone the platform reports,
      or None when asking for it throws or gives no string. */
  function PreselectSourceZone(detected: Option<string>): (r: string)
    ensures r in Timezones
    ensures detected.None? ==> r == "UTC"
    ensures detected.Some? && detected.value in Timezones ==> r == detected.value
    ensures detected.Some? && detected.value !in Timezones ==>
              var hit := FirstSharing(Timezones, detected.value, 0);
              (hit.None? ==> r == "UTC")
              && (hit.Some? ==> r == Timezones[hit.value] && SharesSegment(r, detected.value))
  {
    match detected
    case None => "UTC"
    case Some(local) =>
      if local in Timezones then local
      else
        match FirstSharing(Timezones, local, 0)
        case None => "UTC"
        case Some(i) => Timezones[i]
  }

  /** A system zone missing from the list falls back to the first entry sharing a segment
      with it: `America/Denver` pre-selects `America/New_York`. */
  lemma UnlistedZoneSharesSegment()
    ensures PreselectSourceZone(Some("America/Denver")) == "America/New_York"
  {
    DenverUnlisted();
    DenverSharesWithNewYork();
  }

  lemma DenverUnlisted()
    ensures "America/Denver" !in Timezones
  {
  }

  lemma DenverSharesWithNewYork()
    ensures SharesSegment("America/New_York", "America/Denver")
  {
    var local := "America/Denver";
    assert local[7] == '/' && '/' !in local[..7];
    assert "America/New_York"[..7] == local[..7];
    SharesFirstSegment("America/New_York", local, 7);
  }

  /** A zone that contains everything before the first '/' of the system zone shares a segment with it. */
  lemma SharesFirstSegment(tz: string, local: string, i: nat)
    requires i < |local| && local[i] == '/' && '/' !in local[..i]
    requires Contains(tz, local[..i])
    ensures SharesSegment(tz, local)
  {
    assert IndexOf(local, '/') == i;
  }

  // ---------------------------------------------------------------------------
  // The click handler
  // ---------------------------------------------------------------------------

  /** The local clock reading `setHours` is given: seconds and milliseconds forced to 0. */
  datatype WallClock = WallClock(hours: nat, minutes: nat, seconds: nat, milliseconds: nat)

  /** What the results area ends up showing: an error (red), the same-zone notice (amber),
      or the target zone with its formatted time. */
  datatype Shown = Alert(message: string) | Notice(message: string) | Converted(zone: string, formatted: string)

  const EnterTimeMessage := "Please enter a time to convert."
  const SameZoneMessage := "Source and target timezones are the same. No conversion needed."
  const BadFormatMessage := "Invalid time format. Use HH:MM or HH:MM AM/PM."
  const BadValuesMessage := "Invalid time values."

  function ConversionError(detail: string): (r: string)
    ensures var prefix := "Error converting time: Invalid input or unknown timezone. (";
            |r| == |prefix| + |detail| + 1 && r[..|prefix|] == prefix
            && r[|prefix|..|r| - 1] == detail && r[|r| - 1] == ')'
  {
    "Error converting time: Invalid input or unknown timezone. (" + detail + ")"
  }

  /** The results area after a click on Convert. The instant formatted is today in the system's
      zone at the typed hour and minute, with seconds and milliseconds forced to 0. */
  function OnConvertClick(raw: string, sourceTz: string, targetTz: string, now: int,
                          setHours: (int, WallClock) -> int,
                          format: (string, int) -> Result<string, string>): (r: Shown)
    ensures Trim(raw) == [] ==> r == Alert(EnterTimeMessage)
    ensures Trim(raw) != [] && sourceTz == targetTz ==> r == Notice(SameZoneMessage)
    ensures ParseTypedTime(raw, sourceTz, targetTz) == BadFormat ==> r == Alert(BadFormatMessage)
    ensures ParseTypedTime(raw, sourceTz, targetTz) == BadValues ==> r == Alert(BadValuesMessage)
    ensures r.Converted? ==>
              var p := ParseTypedTime(raw, sourceTz, targetTz);
              p.Ok? && InRange(p.hour, p.minute) && r.zone == targetTz
              && format(targetTz, setHours(now, WallClock(p.hour, p.minute, 0, 0))) == Success(r.formatted)
    ensures ParseTypedTime(raw, sourceTz, targetTz).Ok? ==>
              var p := ParseTypedTime(raw, sourceTz, targetTz);
              var t := setHours(now, WallClock(p.hour, p.minute, 0, 0));
              (r.Converted? <==> format(sourceTz, t).Success? && format(targetTz, t).Success?)
              && (format(sourceTz, t).Failure? ==> r == Alert(ConversionError(format(sourceTz, t).error)))
              && (format(sourceTz, t).Success? && format(targetTz, t).Failure? ==>
                    r == Alert(ConversionError(format(targetTz, t).error)))
              && (format(sourceTz, t).Success? && format(targetTz, t).Success? ==>
                    r == Converted(targetTz, format(targetTz, t).value))
  {
    match ParseTypedTime(raw, sourceTz, targetTz)
    case Empty => Alert(EnterTimeMessage)
    case SameZone => Notice(SameZoneMessage)
    case BadFormat => Alert(BadFormatMessage)
    case BadValues => Alert(BadValuesMessage)
    case Ok(hour, minute) =>
      var t := setHours(now, WallClock(hour, minute, 0, 0));
      // the source-zone text is computed and dropped; only a failure of it is visible
      match format(sourceTz, t)
      case Failure(e) => Alert(ConversionError(e))
      case Success(_) =>
        match format(targetTz, t)
        case Failure(e) => Alert(ConversionError(e))
        case Success(text) => Converted(targetTz, text)
  }

  /** A zone every formatting call accepts. */
  ghost predicate Accepted(format: (string, int) -> Result<string, string>, zone: string) {
    forall t: int :: format(zone, t).Success?
  }

  /** The shown text depends only on the target zone and the system-local instant: any two
      source zones that differ from the target and that the formatter accepts give the same result. */
  lemma ResultIgnoresSourceZone(raw: string, source1: string, source2: string, targetTz: string,
                                now: int, setHours: (int, WallClock) -> int,
                                format: (string, int) -> Result<string, string>)
    requires source1 != targetTz && source2 != targetTz
    requires Accepted(format, source1) && Accepted(format, source2)
    ensures OnConvertClick(raw, source1, targetTz, now, setHours, format)
         == OnConvertClick(raw, source2, targetTz, now, setHours, format)
  {
    var p := ParseTypedTime(raw, source1, targetTz);
    assert p == ParseTypedTime(raw, source2, targetTz);
    if p.Ok? {
      var t := setHours(now, WallClock(p.hour, p.minute, 0, 0));
      assert format(source1, t).Success? && format(source2, t).Success?;
    }
  }

  /** Equal zones never reach the platform: the notice is the same whatever the clock,
      the day arithmetic and the formatter do. */
  lemma SameZoneNeverFormats(raw: string, zone: string, now1: int, now2: int,
                             setHours1: (int, WallClock) -> int, setHours2: (int, WallClock) -> int,
                             format1: (string, int) -> Result<string, string>,
                             format2: (string, int) -> Result<string, string>)
    requires Trim(raw) != []
    ensures OnConvertClick(raw, zone, zone, now1, setHours1, format1)
         == OnConvertClick(raw, zone, zone, now2, setHours2, format2)
         == Notice(SameZoneMessage)
  {
  }
}
