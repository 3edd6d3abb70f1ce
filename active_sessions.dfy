/** The display helpers of frontend/src/components/ActiveSessions.tsx. A `char`
    is a Unicode scalar value, so the emoji are written by code point. */
module SessionView {
  import opened Wrappers
  import opened Seqs
  import opened Decimal
  import opened Strings
  import opened Durations

  // ---------------------------------------------------------------- durations

  /** `formatDuration`: seconds below a minute (negative gaps included),
      otherwise minutes and the remaining seconds. */
  function FormatDuration(seconds: int): string {
    if seconds < 60 then Token(seconds, 's')
    else Token(seconds / 60, 'm') + " " + Token(seconds % 60, 's')
  }

  /** Read back, every duration label gives its duration again. */
  lemma FormatDurationRoundTrip(seconds: int)
    ensures ParseClock(FormatDuration(seconds)) == Some(seconds)
  {
    if seconds < 60 {
      ParseLastToken(seconds, 's');
    } else {
      ParseTwoTokens(seconds / 60, 'm', seconds % 60, 's');
    }
  }

  // ---------------------------------------------------------------- last activity

  const Ago: string := " ago"

  /** `new Date(timestamp).getTime()`: `None` stands for NaN, which is what an
      unparsable timestamp yields; nothing throws. */
  type Instant = Option<int>

  /** The label for a gap of `diffSeconds`, before " ago". */
  function AgoLabel(diffSeconds: int): string {
    if diffSeconds < 60 then Token(diffSeconds, 's')
    else
      var diffMinutes := diffSeconds / 60;
      if diffMinutes < 60 then Token(diffMinutes, 'm')
      else Token(diffMinutes / 60, 'h')
  }

  /** `formatLastActivity` as written: NaN passes both comparisons as false and
      reaches the hours branch, so the `catch` that answers 'Unknown' never runs. */
  function FormatLastActivityAsWritten(nowMs: int, activity: Instant): string {
    if activity.None? then "NaNh" + Ago
    else AgoLabel((nowMs - activity.value) / 1000) + Ago
  }

  /** An unparsable timestamp is shown as "NaNh ago"; "Unknown" is never shown. */
  lemma LastActivityUnknownUnreachable(nowMs: int, activity: Instant)
    ensures FormatLastActivityAsWritten(nowMs, None) == "NaNh ago"
    ensures FormatLastActivityAsWritten(nowMs, activity) != "Unknown"
  {
    var r := FormatLastActivityAsWritten(nowMs, activity);
    assert r[|r| - 4..] == Ago;
  }

  /** `formatLastActivity` with the intended fallback: 'Unknown' when the
      timestamp does not denote an instant. */
  function FormatLastActivity(nowMs: int, activity: Instant): (r: string)
    ensures r == "Unknown" <==> activity.None?
    ensures activity.Some? ==> r == FormatLastActivityAsWritten(nowMs, activity)
  {
    if activity.None? then "Unknown"
    else
      var r := AgoLabel((nowMs - activity.value) / 1000) + Ago;
      assert r[|r| - 4..] == Ago;
      r
  }

  /** The elapsed time the label stands for: whole seconds below a minute
      (`Math.floor`, so a future instant gives a negative count), whole minutes
      below an hour, whole hours beyond. */
  function ShownSeconds(d: int): int {
    if d < 60 then d else if d < 3600 then d - d % 60 else d - d % 3600
  }

  /** Whole hours, read back. */
  lemma HoursLabel(d: int)
    requires d / 60 >= 60
    ensures ParseClock(Token(d / 60 / 60, 'h')) == Some(d - d % 3600)
  {
    var h := d / 60 / 60;
    ParseLastToken(h, 'h');
    assert UnitSeconds('h') == Some(3600);
    assert h == d / 3600;
  }

  /** Read back, a label gives the elapsed time rounded down to its unit. */
  lemma AgoLabelRoundTrip(d: int)
    ensures ParseClock(AgoLabel(d)) == Some(ShownSeconds(d))
  {
    if d < 60 {
      ParseLastToken(d, 's');
    } else if d / 60 < 60 {
      WholeMinutesLabel(d);
    } else {
      HoursLabel(d);
    }
  }

  /** Read back without its " ago", a label gives the elapsed time rounded down
      to its unit. */
  lemma FormatLastActivityRoundTrip(nowMs: int, activityMs: int)
    ensures var d := (nowMs - activityMs) / 1000;
      && FormatLastActivity(nowMs, Some(activityMs)) == AgoLabel(d) + Ago
      && ParseClock(AgoLabel(d)) == Some(ShownSeconds(d))
  {
    AgoLabelRoundTrip((nowMs - activityMs) / 1000);
  }

  // ---------------------------------------------------------------- flags

  const Globe: string := "\U{1F30D}"

  /** The regional-indicator symbol for an ASCII capital letter. */
  function Indicator(letter: char): char
    requires 'A' <= letter <= 'Z'
  {
    (0x1F1E6 + (letter as int - 'A' as int)) as char
  }

  /** The flag emoji of an ISO 3166-1 alpha-2 code. */
  function IsoFlag(code: string): string
    requires |code| == 2 && 'A' <= code[0] <= 'Z' && 'A' <= code[1] <= 'Z'
  {
    [Indicator(code[0]), Indicator(code[1])]
  }

  /** The `flags` table. */
  const Flags: map<string, string> := map[
    "India" := "\U{1F1EE}\U{1F1F3}",
    "USA" := "\U{1F1FA}\U{1F1F8}",
    "UK" := "\U{1F1EC}\U{1F1E7}",
    "Germany" := "\U{1F1E9}\U{1F1EA}",
    "France" := "\U{1F1EB}\U{1F1F7}",
    "Japan" := "\U{1F1EF}\U{1F1F5}",
    "Brazil" := "\U{1F1E7}\U{1F1F7}",
    "Canada" := "\U{1F1E8}\U{1F1E6}",
    "Australia" := "\U{1F1E6}\U{1F1FA}"]

  /** Each entry of the table is the flag of the country's ISO code. */
  lemma FlagsAreIsoFlags()
    ensures Flags["India"] == IsoFlag("IN") && Flags["USA"] == IsoFlag("US")
    ensures Flags["UK"] == IsoFlag("GB") && Flags["Germany"] == IsoFlag("DE")
    ensures Flags["France"] == IsoFlag("FR") && Flags["Japan"] == IsoFlag("JP")
    ensures Flags["Brazil"] == IsoFlag("BR") && Flags["Canada"] == IsoFlag("CA")
    ensures Flags["Australia"] == IsoFlag("AU")
    ensures forall c :: c in Flags ==> Flags[c] != "" && Flags[c] != Globe
  {
  }

  /** The names every plain object inherits from `Object.prototype`; each one
      looks up to a function, or for `__proto__` to the prototype object. */
  const InheritedNames: set<string> := {
    "constructor", "hasOwnProperty", "isPrototypeOf", "propertyIsEnumerable",
    "toLocaleString", "toString", "valueOf", "__proto__",
    "__defineGetter__", "__defineSetter__", "__lookupGetter__", "__lookupSetter__"}

  /** What `flags[country] || globe` evaluates to: a string, or an inherited
      member that is not one. */
  datatype FlagValue = Text(s: string) | NotText(name: string)

  /** `getCountryFlag` as written: an own entry, else an inherited member (which
      is truthy), else the globe. */
  function CountryFlagAsWritten(country: string): FlagValue {
    if country in Flags then Text(Flags[country])
    else if country in InheritedNames then NotText(country)
    else Text(Globe)
  }

  /** A country named after an inherited member gets no text at all: for
      `__proto__` the component would be handed an object to render. */
  lemma InheritedCountryHasNoFlag()
    ensures CountryFlagAsWritten("__proto__").NotText?
    ensures CountryFlagAsWritten("toString").NotText?
  {
  }

  /** `getCountryFlag` as intended: the table's own entries, the globe for
      every other country. */
  function CountryFlag(country: string): (r: string)
    ensures country in Flags ==> r == Flags[country]
    ensures country !in Flags ==> r == Globe
    ensures r != ""
  {
    if country in Flags then Flags[country] else Globe
  }

  /** The two agree on every country that is not an inherited name. */
  lemma CountryFlagAgrees(country: string)
    requires country !in InheritedNames
    ensures CountryFlagAsWritten(country) == Text(CountryFlag(country))
  {
  }

  // ---------------------------------------------------------------- devices

  /** `String.prototype.toLowerCase` on one character, for ASCII capitals and
      the Kelvin sign U+212A (the one other character whose lower case is
      a single ASCII letter). */
  function LowerChar(c: char): char {
    if 'A' <= c <= 'Z' then (c as int + 32) as char
    else if c == '\U{212A}' then 'k'
    else c
  }

  function ToLower(s: string): (r: string)
    ensures |r| == |s|
    ensures forall i :: 0 <= i < |s| ==> r[i] == LowerChar(s[i])
  {
    seq(|s|, i requires 0 <= i < |s| => LowerChar(s[i]))
  }

  lemma LowerCharIdempotent(c: char)
    ensures LowerChar(LowerChar(c)) == LowerChar(c)
  {
  }

  lemma ToLowerIdempotent(s: string)
    ensures ToLower(ToLower(s)) == ToLower(s)
  {
    forall i | 0 <= i < |s| ensures ToLower(ToLower(s))[i] == ToLower(s)[i] {
      LowerCharIdempotent(s[i]);
    }
  }

  const PhoneIcon: string := "\U{1F4F1}"
  const DesktopIcon: string := "\U{1F5A5}\U{FE0F}"
  const LaptopIcon: string := "\U{1F4BB}"

  /** `getDeviceIcon`: mobile and tablet share the phone, desktop has its own,
      anything else is the laptop; case does not matter. */
  function DeviceIcon(device: string): (r: string)
    ensures r == PhoneIcon <==> ToLower(device) == "mobile" || ToLower(device) == "tablet"
    ensures r == DesktopIcon <==> ToLower(device) == "desktop"
    ensures r == LaptopIcon <==> ToLower(device) !in {"mobile", "tablet", "desktop"}
  {
    var d := ToLower(device);
    if d == "mobile" then PhoneIcon
    else if d == "desktop" then DesktopIcon
    else if d == "tablet" then PhoneIcon
    else LaptopIcon
  }

  /** Changing the case of a device name does not change its icon. */
  lemma DeviceIconIgnoresCase(device: string)
    ensures DeviceIcon(ToLower(device)) == DeviceIcon(device)
    ensures DeviceIcon("Mobile") == DeviceIcon("TABLET") == PhoneIcon
    ensures DeviceIcon("DESKTOP") == DesktopIcon
  {
    ToLowerIdempotent(device);
    assert ToLower("Mobile") == "mobile";
    assert ToLower("TABLET") == "tablet";
    assert ToLower("DESKTOP") == "desktop";
  }

  // ---------------------------------------------------------------- ids

  /** `session_id.slice(-8)`. */
  function ShortId(id: string): (r: string)
    ensures |r| == if |id| < 8 then |id| else 8
    ensures id == id[..|id| - |r|] + r
  {
    Last(id, 8)
  }

  /** Short ids are shown whole. */
  lemma ShortIdOfShort(id: string)
    requires |id| <= 8
    ensures ShortId(id) == id
  {
  }
}
