/**
 * getFormattedTime: the label a time channel should carry. The wall clock and
 * the Intl time-zone conversion are a parameter `clock`, mapping an IANA zone
 * identifier to its current "HH:MM" (fr-FR, 24-hour), or to None when the
 * conversion throws.
 */
module Formatter {
  import opened Wrappers
  import opened Catalog

  /** Current "HH:MM" per IANA zone identifier; None when the conversion fails. */
  type Clock = string -> Option<string>

  /** The fixed marker in front of every label. */
  const ClockIcon := "🕐 ・"

  function Label(zone: Zone, time: string): string {
    ClockIcon + zone.name + " " + time
  }

  /**
   * The label for `key`: None for a key outside the catalog or when the time
   * cannot be computed, otherwise the clock icon, the place name and the time.
   */
  function FormattedTime(catalog: seq<Entry>, key: string, clock: Clock): (text: Option<string>)
    ensures !HasKey(catalog, key) ==> text == None
    ensures UniqueKeys(catalog) ==> forall i :: 0 <= i < |catalog| && catalog[i].key == key ==>
      text == (if clock(catalog[i].zone.timezone).Some?
                then Some(ClockIcon + catalog[i].zone.name + " " + clock(catalog[i].zone.timezone).value)
                else None)
  {
    LookupFindsEveryEntry(catalog);
    match Lookup(catalog, key)
    case None => None
    case Some(zone) =>
      match clock(zone.timezone)
      case None => None
      case Some(time) => Some(Label(zone, time))
  }

  /** Names every plain object inherits from Object.prototype. */
  const InheritedNames: set<string> := {
    "constructor", "__proto__", "hasOwnProperty", "isPrototypeOf", "propertyIsEnumerable",
    "toString", "toLocaleString", "valueOf",
    "__defineGetter__", "__defineSetter__", "__lookupGetter__", "__lookupSetter__"
  }

  /**
   * The `name` property of what `TIMEZONES[key]` yields for an inherited name:
   * the Object constructor is named "Object", Object.prototype has no name
   * (it prints as "undefined"), and every inherited method carries its own name.
   */
  function InheritedName(key: string): string {
    if key == "constructor" then "Object" else if key == "__proto__" then "undefined" else key
  }

  /**
   * getFormattedTime as written: `TIMEZONES[key]` also finds the names
   * inherited from Object.prototype. Their `timezone` is undefined, so the
   * time is that of the host's own zone, `hostTime`, and the label shows
   * their `name`.
   */
  function FormattedTimeAsWritten(catalog: seq<Entry>, key: string, clock: Clock, hostTime: string): (text: Option<string>)
    ensures HasKey(catalog, key) ==> text == FormattedTime(catalog, key, clock)
    ensures !HasKey(catalog, key) && key !in InheritedNames ==> text == None
    ensures !HasKey(catalog, key) && key in InheritedNames ==>
      && text.Some?
      && StartsWith(text.value, ClockIcon + InheritedName(key) + " ")
      && |hostTime| <= |text.value|
      && text.value[|text.value| - |hostTime|..] == hostTime
  {
    if Lookup(catalog, key).Some? then
      FormattedTime(catalog, key, clock)
    else if key in InheritedNames then
      var text := ClockIcon + InheritedName(key) + " " + hostTime;
      assert text[..|ClockIcon + InheritedName(key) + " "|] == ClockIcon + InheritedName(key) + " ";
      assert text[|text| - |hostTime|..] == hostTime;
      Some(text)
    else
      None
  }

  /**
   * As written, the key "constructor" outside the catalog gets the label of a
   * place called "Object" at the host's time, where the own-key lookup gives none.
   */
  lemma ConstructorLabelledAsObject(catalog: seq<Entry>, clock: Clock, hostTime: string)
    requires !HasKey(catalog, "constructor")
    ensures FormattedTimeAsWritten(catalog, "constructor", clock, hostTime) == Some(ClockIcon + "Object" + " " + hostTime)
    ensures FormattedTime(catalog, "constructor", clock) == None
  {
    assert "constructor" in InheritedNames;
  }

  /** A successful label starts with the clock icon, then shows the place name, and ends with the time. */
  lemma LabelShape(catalog: seq<Entry>, key: string, clock: Clock)
    requires FormattedTime(catalog, key, clock).Some?
    ensures var text := FormattedTime(catalog, key, clock).value;
      exists zone: Zone, time: string ::
        && clock(zone.timezone) == Some(time)
        && Lookup(catalog, key) == Some(zone)
        && StartsWith(text, ClockIcon)
        && OccursAt(text, zone.name, |ClockIcon|)
        && text[|text| - |time|..] == time
  {
    var zone := Lookup(catalog, key).value;
    var time := clock(zone.timezone).value;
    var text := Label(zone, time);
    assert text[..|ClockIcon|] == ClockIcon;
    assert text[|ClockIcon|..|ClockIcon| + |zone.name|] == zone.name;
    assert text[|text| - |time|..] == time;
  }
}
