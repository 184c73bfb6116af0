// The webapp's label printer and the server's label parser.
module Labels {
  import opened Int64
  import opened Wrappers
  import opened TtlRules

  const DAY := 86400
  const HOUR := 3600
  const MINUTE := 60

  // ---- Printer: webapp presets ----

  datatype ShortLabel = ShortLabel(text: string, seconds: nat)

  const WEB_PRESETS: seq<ShortLabel> := [
    ShortLabel("5m", 300),
    ShortLabel("1h", 3600),
    ShortLabel("8h", 28800),
    ShortLabel("1d", 86400),
    ShortLabel("1w", 604800)
  ]

  predicate IsPreset(seconds: nat) {
    exists p :: p in WEB_PRESETS && p.seconds == seconds
  }

  function FindBySeconds(presets: seq<ShortLabel>, seconds: nat): Option<string> {
    if presets == [] then None
    else if presets[0].seconds == seconds then Some(presets[0].text)
    else FindBySeconds(presets[1..], seconds)
  }

  function DigitChar(d: nat): char
    requires d < 10
  {
    "0123456789"[d]
  }

  // Decimal text without leading zeros.
  function Decimal(n: nat): string {
    if n < 10 then [DigitChar(n)] else Decimal(n / 10) + [DigitChar(n % 10)]
  }

  function ShortDuration(seconds: nat): string {
    match FindBySeconds(WEB_PRESETS, seconds)
    case Some(text) => text
    case None =>
      if seconds >= DAY && seconds % DAY == 0 then Decimal(seconds / DAY) + "d"
      else if seconds >= HOUR && seconds % HOUR == 0 then Decimal(seconds / HOUR) + "h"
      else if seconds >= MINUTE && seconds % MINUTE == 0 then Decimal(seconds / MINUTE) + "m"
      else Decimal(seconds) + "s"
  }

  // ---- Reading decimals ----

  predicate IsDigit(c: char) {
    '0' <= c <= '9'
  }

  predicate AllDigits(s: string) {
    forall i | 0 <= i < |s| :: IsDigit(s[i])
  }

  function DigitValue(c: char): nat
    requires IsDigit(c)
  {
    c as int - '0' as int
  }

  function DecimalValue(s: string): nat
    requires AllDigits(s)
  {
    if s == "" then 0 else 10 * DecimalValue(s[..|s| - 1]) + DigitValue(s[|s| - 1])
  }

  lemma {:induction false} DecimalRoundTrip(n: nat)
    ensures AllDigits(Decimal(n)) && Decimal(n) != "" && DecimalValue(Decimal(n)) == n
  {
    if n >= 10 {
      DecimalRoundTrip(n / 10);
      var s := Decimal(n);
      assert s[..|s| - 1] == Decimal(n / 10);
    } else {
      assert Decimal(n)[..0] == "";
      assert DecimalValue("") == 0;
    }
  }

  // ---- Reference parser: one number, one unit ----

  predicate IsUnit(u: char) {
    u in "smhdw"
  }

  // n units in seconds.
  function Scale(n: nat, u: char): nat
    requires IsUnit(u)
  {
    match u
    case 's' => n
    case 'm' => n * MINUTE
    case 'h' => n * HOUR
    case 'd' => n * DAY
    case _ => n * (7 * DAY)
  }

  function LabelSeconds(text: string): Option<nat> {
    if |text| < 2 then None
    else
      var digits, unit := text[..|text| - 1], text[|text| - 1];
      if AllDigits(digits) && IsUnit(unit) then Some(Scale(DecimalValue(digits), unit)) else None
  }

  lemma LabelSecondsOf(n: nat, unit: char)
    requires IsUnit(unit)
    ensures LabelSeconds(Decimal(n) + [unit]) == Some(Scale(n, unit))
  {
    DecimalRoundTrip(n);
    var text := Decimal(n) + [unit];
    assert text[..|text| - 1] == Decimal(n);
  }

  // The largest unit the printer uses for these seconds.
  function PrinterUnit(seconds: nat): char {
    if seconds == 7 * DAY then 'w'
    else if seconds >= DAY && seconds % DAY == 0 then 'd'
    else if seconds >= HOUR && seconds % HOUR == 0 then 'h'
    else if seconds >= MINUTE && seconds % MINUTE == 0 then 'm'
    else 's'
  }

  // Printed labels have the form number-unit, and scaling the number by the unit
  // gives the seconds.
  lemma PrinterForm(seconds: nat) returns (n: nat)
    ensures Scale(n, PrinterUnit(seconds)) == seconds
    ensures ShortDuration(seconds) == Decimal(n) + [PrinterUnit(seconds)]
  {
    PresetLookup(seconds);
    match seconds
    case 300 => n := 5;
    case 3600 => n := 1;
    case 28800 => n := 8;
    case 86400 => n := 1;
    case 604800 => n := 1;
    case _ => n := OffPresetForm(seconds);
  }

  lemma OffPresetForm(seconds: nat) returns (n: nat)
    requires FindBySeconds(WEB_PRESETS, seconds) == None
    requires seconds != 7 * DAY
    ensures Scale(n, PrinterUnit(seconds)) == seconds
    ensures ShortDuration(seconds) == Decimal(n) + [PrinterUnit(seconds)]
  {
    match PrinterUnit(seconds)
    case 'd' => n := seconds / DAY;
    case 'h' => n := seconds / HOUR;
    case 'm' => n := seconds / MINUTE;
    case _ => n := seconds;
  }

  lemma PresetLookup(seconds: nat)
    ensures IsPreset(seconds) <==> seconds in {300, 3600, 28800, 86400, 604800}
    ensures FindBySeconds(WEB_PRESETS, seconds) ==
      if seconds == 300 then Some("5m")
      else if seconds == 3600 then Some("1h")
      else if seconds == 28800 then Some("8h")
      else if seconds == 86400 then Some("1d")
      else if seconds == 604800 then Some("1w")
      else None
  {
    var p := WEB_PRESETS;
    assert p[1..] == [p[1], p[2], p[3], p[4]];
    assert [p[1], p[2], p[3], p[4]][1..] == [p[2], p[3], p[4]];
    assert [p[2], p[3], p[4]][1..] == [p[3], p[4]];
    assert [p[3], p[4]][1..] == [p[4]] && [p[4]][1..] == [];
    assert FindBySeconds([p[4]], seconds) == if seconds == 604800 then Some("1w") else None;
    assert FindBySeconds([p[3], p[4]], seconds) ==
      if seconds == 86400 then Some("1d") else if seconds == 604800 then Some("1w") else None;
    assert FindBySeconds([p[1], p[2], p[3], p[4]], seconds) ==
      if seconds == 3600 then Some("1h")
      else if seconds == 28800 then Some("8h")
      else FindBySeconds([p[3], p[4]], seconds);
    assert p[0] in p && p[1] in p && p[2] in p && p[3] in p && p[4] in p;
  }

  // A printed label determines the seconds it was printed for.
  lemma LabelSecondsInvertsPrinter(seconds: nat)
    ensures LabelSeconds(ShortDuration(seconds)) == Some(seconds)
  {
    var n := PrinterForm(seconds);
    LabelSecondsOf(n, PrinterUnit(seconds));
  }

  lemma PrinterIsInjective(s: nat, t: nat)
    requires ShortDuration(s) == ShortDuration(t)
    ensures s == t
  {
    LabelSecondsInvertsPrinter(s);
    LabelSecondsInvertsPrinter(t);
  }

  // ---- Server parser ----

  function LeadingDigits(s: string): (k: nat)
    ensures k <= |s| && AllDigits(s[..k])
    ensures k < |s| ==> !IsDigit(s[k])
  {
    if s == "" || !IsDigit(s[0]) then 0
    else
      var k := 1 + LeadingDigits(s[1..]);
      assert s[..k] == [s[0]] + s[1..][..k - 1];
      k
  }

  predicate IsClockUnit(u: char) {
    u in "smh"
  }

  function Nanoseconds(digits: string, unit: char): nat
    requires AllDigits(digits) && IsClockUnit(unit)
  {
    Scale(DecimalValue(digits), unit) * SECOND
  }

  // The first number-unit group of a text, in nanoseconds, and the text after it.
  datatype First = First(nanoseconds: nat, rest: string)

  function FirstGroup(s: string): (r: Option<First>)
    ensures r.Some? ==> |r.value.rest| < |s|
  {
    var k := LeadingDigits(s);
    if k == 0 || k == |s| || !IsClockUnit(s[k]) then None
    else Some(First(Nanoseconds(s[..k], s[k]), s[k + 1..]))
  }

  // A series of groups, added up.
  function SumUnits(s: string, acc: nat): Option<nat>
    decreases |s|
  {
    if s == "" then Some(acc)
    else
      match FirstGroup(s)
      case None => None
      case Some(first) => SumUnits(first.rest, acc + first.nanoseconds)
  }

  // time.ParseDuration on the units h, m and s: an optional sign, then groups; the
  // result must fit in 64 bits.
  function ParseDuration(text: string): Option<int> {
    var signed := text != "" && (text[0] == '-' || text[0] == '+');
    var s := if signed then text[1..] else text;
    if s == "0" then Some(0)
    else if s == "" then None
    else
      match SumUnits(s, 0)
      case None => None
      case Some(total) => InRange(if signed && text[0] == '-' then -(total as int) else total)
  }

  function InRange(d: int): Option<int> {
    if Fits(d) then Some(d) else None
  }

  function ParseTTLArg(s: string): Option<int> {
    match PresetForLabel(s)
    case Some(p) => Some(p.duration)
    case None => ParseDuration(s)
  }

  lemma {:induction false} LeadingDigitsOf(s: string, unit: char)
    requires AllDigits(s) && !IsDigit(unit)
    ensures LeadingDigits(s + [unit]) == |s|
  {
    if s == "" {
      assert s + [unit] == [unit];
    } else {
      LeadingDigitsOf(s[1..], unit);
      assert (s + [unit])[1..] == s[1..] + [unit];
    }
  }

  // One number with one unit: the clock units are read, every other one is refused.
  lemma ParseOneGroup(n: nat, unit: char)
    requires IsUnit(unit)
    ensures ParseDuration(Decimal(n) + [unit]) ==
      if IsClockUnit(unit) && Fits(Scale(n, unit) * SECOND) then Some(Scale(n, unit) * SECOND) else None
  {
    DecimalRoundTrip(n);
    LeadingDigitsOf(Decimal(n), unit);
    var s := Decimal(n) + [unit];
    assert s[0] == Decimal(n)[0] && Decimal(n)[0] in Decimal(n);
    assert s[..|s| - 1] == Decimal(n);
    assert s[|s|..] == "";
    if IsClockUnit(unit) {
      assert SumUnits(s, 0) == SumUnits("", Scale(n, unit) * SECOND);
    }
  }

  // 30s is no preset: it is read as a duration, which validation rejects.
  lemma ThirtySecondsIsNoPreset()
    ensures PresetForLabel("30s").None? && ParseTTLArg("30s") == Some(30 * SECOND) && !ValidTTL(30 * SECOND)
  {
    ServerPresetLookup("30s");
    ParseOneGroup(30, 's');
    assert Decimal(30) == "30" by {
      assert Decimal(3) == "3";
    }
    assert Decimal(30) + ['s'] == "30s";
  }

  lemma ServerPresetLookup(text: string)
    ensures PresetForLabel(text) ==
      if text == "5m" then Some(Preset("5m", 300 * SECOND))
      else if text == "1h" then Some(Preset("1h", 3600 * SECOND))
      else if text == "8h" then Some(Preset("8h", 28800 * SECOND))
      else if text == "1d" then Some(Preset("1d", 86400 * SECOND))
      else if text == "1w" then Some(Preset("1w", 604800 * SECOND))
      else None
  {
    var p := PRESETS;
    assert p[1..] == [p[1], p[2], p[3], p[4]];
    assert [p[1], p[2], p[3], p[4]][1..] == [p[2], p[3], p[4]];
    assert [p[2], p[3], p[4]][1..] == [p[3], p[4]];
    assert [p[3], p[4]][1..] == [p[4]] && [p[4]][1..] == [];
    assert FindPreset([p[4]], text) == if text == "1w" then Some(p[4]) else None;
    assert FindPreset([p[3], p[4]], text) == if text == "1d" then Some(p[3]) else if text == "1w" then Some(p[4]) else None;
    assert FindPreset([p[1], p[2], p[3], p[4]], text) ==
      if text == "1h" then Some(p[1])
      else if text == "8h" then Some(p[2])
      else FindPreset([p[3], p[4]], text);
  }

  // The server knows a printed label as a preset only if the seconds are a preset,
  // and then both sides agree on the duration.
  lemma PresetsAgree(seconds: nat)
    ensures PresetForLabel(ShortDuration(seconds)).Some? <==> IsPreset(seconds)
    ensures IsPreset(seconds) ==> ParseTTLArg(ShortDuration(seconds)) == Some(seconds * SECOND)
  {
    PresetLookup(seconds);
    ServerPresetLookup(ShortDuration(seconds));
    if !IsPreset(seconds) {
      PresetLabels();
      assert forall p | p in [300, 3600, 28800, 86400, 604800] :: seconds != p;
      forall p: nat | p in [300, 3600, 28800, 86400, 604800]
        ensures ShortDuration(seconds) != ShortDuration(p)
      {
        LabelSecondsInvertsPrinter(seconds);
        LabelSecondsInvertsPrinter(p);
      }
    }
  }

  lemma PresetLabels()
    ensures ShortDuration(300) == "5m" && ShortDuration(3600) == "1h" && ShortDuration(28800) == "8h"
    ensures ShortDuration(86400) == "1d" && ShortDuration(604800) == "1w"
  {
  }

  // The server reads a printed label back to the same duration exactly when it is a
  // preset or not a whole number of days: the suffix d is otherwise unknown to it.
  lemma ServerReadsPrintedLabel(seconds: nat)
    requires 0 < seconds && Fits(seconds * SECOND)
    ensures ParseTTLArg(ShortDuration(seconds)) == Some(seconds * SECOND)
      <==> IsPreset(seconds) || seconds % DAY != 0
    ensures ParseTTLArg(ShortDuration(seconds)) in {Some(seconds * SECOND), None}
  {
    PresetsAgree(seconds);
    if !IsPreset(seconds) {
      PrintedOffPreset(seconds);
    }
  }

  lemma PrintedOffPreset(seconds: nat)
    requires 0 < seconds && Fits(seconds * SECOND) && !IsPreset(seconds)
    ensures ParseDuration(ShortDuration(seconds)) ==
      if seconds % DAY == 0 then None else Some(seconds * SECOND)
  {
    var n := PrinterForm(seconds);
    PresetLookup(seconds);
    assert PrinterUnit(seconds) == 'd' <==> seconds % DAY == 0;
    ParseOneGroup(n, PrinterUnit(seconds));
  }
}
