/** The two zone lists of the overlay that content_script.js builds: `getTimeZones`
    and `populateTimeZoneSelects`. */
module ZoneSelects {
  import opened Text
  import opened StringOrder

  /** The zone ids of `getTimeZones`, as written, before sorting. */
  const ListedZones: seq<string> := [
    "America/New_York", "America/Chicago", "America/Denver", "America/Los_Angeles",
    "America/Anchorage", "America/Honolulu",
    "Europe/London", "Europe/Berlin", "Europe/Paris",
    "Asia/Tokyo", "Asia/Shanghai", "Asia/Kolkata",
    "Australia/Sydney", "Australia/Perth",
    "Africa/Johannesburg",
    "Etc/UTC"
  ]

  const FallbackFromZone := "America/New_York"
  const DefaultToZone := "Etc/UTC"

  /** `getTimeZones()`: the listed ids, sorted. */
  function TimeZones(): (r: seq<string>)
    ensures |r| == 16
    ensures FallbackFromZone in r && DefaultToZone in r
  {
    var r := Sort(ListedZones);
    assert |r| == |multiset(r)| == |multiset(ListedZones)| == |ListedZones|;
    assert FallbackFromZone in multiset(ListedZones) && DefaultToZone in multiset(ListedZones);
    r
  }

  /** `getTimeZones()` holds each listed id once, in ascending order. */
  lemma TimeZonesSortedPermutation()
    ensures Sorted(TimeZones()) && multiset(TimeZones()) == multiset(ListedZones)
  {
  }

  /** Whatever algorithm the engine sorts with, the result is `getTimeZones()`. */
  lemma AnySortGivesTimeZones(s: seq<string>)
    requires Sorted(s) && multiset(s) == multiset(ListedZones)
    ensures s == TimeZones()
  {
    TimeZonesSortedPermutation();
    SortedUnique(s, TimeZones());
  }

  // ---------------------------------------------------------------------------
  // Option labels and defaults
  // ---------------------------------------------------------------------------

  /** One `<option>`: the value submitted and the text shown. */
  datatype ZoneOption = ZoneOption(value: string, text: string)

  /** The text of an option of the "From" list: `zone.replace(/_/g, '')`. */
  function FromLabel(zone: string): (r: string)
    ensures '_' !in r
    ensures '_' !in zone ==> r == zone
  {
    RemoveChar(zone, '_')
  }

  /** The text of an option of the "To" list: `zone.replace(/_/g, ' ')`. */
  function ToLabel(zone: string): (r: string)
    ensures |r| == |zone| && '_' !in r
    ensures forall i | 0 <= i < |zone| :: r[i] == (if zone[i] == '_' then ' ' else zone[i])
  {
    ReplaceChar(zone, '_', ' ')
  }

  /** A zone id without spaces is recovered from its "To" label, and its "From" label is the
      "To" label with the spaces taken out. */
  lemma LabelsOfSpacelessZone(zone: string)
    requires ' ' !in zone
    ensures ReplaceChar(ToLabel(zone), ' ', '_') == zone
    ensures FromLabel(zone) == RemoveChar(ToLabel(zone), ' ')
  {
    ReplaceCharUndo(zone, '_', ' ');
    RemoveAfterReplace(zone, '_', ' ');
    assert ' ' !in RemoveChar(zone, '_');
  }

  /** Every option of a "From" list carries the "From" label of its value. */
  predicate LabelledFrom(options: seq<ZoneOption>) {
    forall o | o in options :: o == FromOption(o.value)
  }

  /** Every option of a "To" list carries the "To" label of its value. */
  predicate LabelledTo(options: seq<ZoneOption>) {
    forall o | o in options :: o == ToOption(o.value)
  }

  /** The "From" option for `zone`. */
  function FromOption(zone: string): ZoneOption {
    ZoneOption(zone, FromLabel(zone))
  }

  /** The "To" option for `zone`. */
  function ToOption(zone: string): ZoneOption {
    ZoneOption(zone, ToLabel(zone))
  }

  /** The zone the "From" list starts on. */
  function DefaultFromZone(userZone: string): (r: string)
    ensures r in TimeZones()
    ensures userZone in TimeZones() ==> r == userZone
    ensures userZone !in TimeZones() ==> r == FallbackFromZone
  {
    if userZone in TimeZones() then userZone else FallbackFromZone
  }

  // ---------------------------------------------------------------------------
  // The <select> elements
  // ---------------------------------------------------------------------------

  function Values(options: seq<ZoneOption>): (r: seq<string>)
    ensures |r| == |options|
    ensures forall i | 0 <= i < |options| :: r[i] == options[i].value
  {
    if options == [] then [] else [options[0].value] + Values(options[1..])
  }

  /** A `<select>`: its options and its current value ("" when no option is selected). */
  class SelectBox {
    var options: seq<ZoneOption>
    var value: string

    constructor ()
      ensures options == [] && value == ""
    {
      options := [];
      value := "";
    }

    /** `innerHTML = ''`. */
    method Clear()
      modifies this
      ensures options == [] && value == ""
    {
      options := [];
      value := "";
    }

    /** `appendChild(option)`: the first option of an empty list becomes the selected one.
        Appending to a non-empty list whose value is "" keeps "" here, where the DOM would select
        the first option; `populateTimeZoneSelects` never reaches that state, since it clears both
        lists first and sets their values only after all options are appended. */
    method Append(o: ZoneOption)
      modifies this
      ensures options == old(options) + [o]
      ensures value == if old(options) == [] then o.value else old(value)
    {
      if options == [] { value := o.value; }
      options := options + [o];
    }

    /** `select.value = v`: selects the first option with that value, or none at all. */
    method SetValue(v: string)
      modifies this
      ensures options == old(options)
      ensures value == if v in Values(options) then v else ""
    {
      value := if v in Values(options) then v else "";
    }
  }

  /** The `forEach` of `populateTimeZoneSelects()`: one "From" and one "To" option per zone. */
  method AddZoneOptions(fromSelect: SelectBox, toSelect: SelectBox, zones: seq<string>)
    requires fromSelect != toSelect
    requires fromSelect.options == [] && toSelect.options == []
    modifies fromSelect, toSelect
    ensures |fromSelect.options| == |toSelect.options| == |zones|
    ensures forall i | 0 <= i < |zones| ::
              fromSelect.options[i] == FromOption(zones[i]) && toSelect.options[i] == ToOption(zones[i])
    ensures Values(fromSelect.options) == zones && Values(toSelect.options) == zones
    ensures LabelledFrom(fromSelect.options) && LabelledTo(toSelect.options)
    ensures fromSelect.value == if zones == [] then old(fromSelect.value) else zones[0]
    ensures toSelect.value == if zones == [] then old(toSelect.value) else zones[0]
  {
    var i := 0;
    while i < |zones|
      invariant 0 <= i <= |zones|
      invariant |fromSelect.options| == |toSelect.options| == i
      invariant forall k | 0 <= k < i ::
                  fromSelect.options[k] == FromOption(zones[k]) && toSelect.options[k] == ToOption(zones[k])
      invariant fromSelect.value == if i == 0 then old(fromSelect.value) else zones[0]
      invariant toSelect.value == if i == 0 then old(toSelect.value) else zones[0]
    {
      fromSelect.Append(FromOption(zones[i]));
      toSelect.Append(ToOption(zones[i]));
      i := i + 1;
    }
  }

  /** Both lists emptied and refilled from `zones`, then the two defaults selected:
      `userZone` in the "From" list when it is one of the zones, the fallback otherwise. */
  method FillSelects(fromSelect: SelectBox, toSelect: SelectBox, zones: seq<string>, userZone: string)
    requires fromSelect != toSelect
    requires FallbackFromZone in zones && DefaultToZone in zones
    modifies fromSelect, toSelect
    ensures Values(fromSelect.options) == zones && Values(toSelect.options) == zones
    ensures LabelledFrom(fromSelect.options) && LabelledTo(toSelect.options)
    ensures fromSelect.value == if userZone in zones then userZone else FallbackFromZone
    ensures toSelect.value == DefaultToZone
  {
    fromSelect.Clear();
    toSelect.Clear();
    AddZoneOptions(fromSelect, toSelect, zones);
    if userZone in zones {
      fromSelect.SetValue(userZone);
    } else {
      fromSelect.SetValue(FallbackFromZone);
    }
    toSelect.SetValue(DefaultToZone);
  }

  /** `populateTimeZoneSelects()`: both lists filled in the order of `getTimeZones()`,
      the user's zone or the fallback selected in the first, UTC in the second. */
  method PopulateTimeZoneSelects(fromSelect: SelectBox, toSelect: SelectBox, userZone: string)
    requires fromSelect != toSelect
    modifies fromSelect, toSelect
    ensures Values(fromSelect.options) == TimeZones() && Values(toSelect.options) == TimeZones()
    ensures LabelledFrom(fromSelect.options) && LabelledTo(toSelect.options)
    ensures fromSelect.value == DefaultFromZone(userZone)
    ensures toSelect.value == DefaultToZone
  {
    var zones := TimeZones();
    FillSelects(fromSelect, toSelect, zones, userZone);
  }
}
