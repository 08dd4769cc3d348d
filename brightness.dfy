/** The text-command brightness agent: its vocabulary for the shared keyword
    decision, the reading of the current brightness, and the actuator that
    runs `brightnessctl set` with an AppleScript fallback. The two subprocess
    programs are not modelled; what each call did is an input. */
module Brightness {
  import opened Wrappers
  import opened PyText
  import opened Levels
  import opened LevelCommands

  /** The word groups of `parse_command`, in chain order. */
  const BrightnessWords := Vocabulary(
    ["increase", "raise", "up", "brighter", "higher"],
    ["decrease", "lower", "down", "dimmer", "dim", "softer"],
    ["min", "minimum", "darkest"],
    ["max", "maximum", "brightest", "full"],
    ["current", "status", "what", "level"])

  /** What `brightnessctl get` did; `value` is what `int(stdout.strip())`
      gives, `None` when that raises. */
  datatype Reading = ReadRaises | ReadExits(code: int, value: Option<int>)

  /** The two calls `get_current_brightness` may make. */
  datatype Probe = Probe(osascript: Call, brightnessctl: Reading)

  /** The value returned whenever no reading is converted. */
  const Fallback := 50

  /** `int((raw / 255) * 100)`: the scale factor, truncated toward zero. */
  function Percent(raw: int): (r: int)
    ensures 0 <= raw <= 255 ==> InRange(r)
    ensures raw == 0 ==> r == 0
    ensures raw == 255 ==> r == 100
    ensures raw >= 0 ==> r * 255 <= raw * 100 < (r + 1) * 255
    ensures raw < 0 ==> r <= 0
  {
    if raw >= 0 then raw * 100 / 255 else -((-raw) * 100 / 255)
  }

  /** The reading is converted only when the AppleScript query exits with a
      non-zero code and `brightnessctl get` then exits with 0 and prints an
      integer. */
  predicate Converts(p: Probe) {
    && p.osascript.Exits? && p.osascript.code != 0
    && p.brightnessctl.ReadExits? && p.brightnessctl.code == 0
    && p.brightnessctl.value.Some?
  }

  /** `get_current_brightness()` */
  function GetCurrentBrightness(p: Probe): (r: int)
    ensures Converts(p) ==> r == Percent(p.brightnessctl.value.value)
    ensures !Converts(p) ==> r == Fallback
  {
    match p.osascript
    case Raises => Fallback
    case Exits(code) =>
      if code != 0 then
        match p.brightnessctl
        case ReadRaises => Fallback
        case ReadExits(c, value) =>
          if c == 0 then
            match value
            case None => Fallback
            case Some(raw) => Percent(raw)
          else Fallback
      else Fallback
  }

  /** A successful AppleScript query is thrown away: the result is 50 whatever
      the panel shows. */
  lemma SuccessfulQueryIgnored(p: Probe)
    requires p.osascript == Exits(0)
    ensures GetCurrentBrightness(p) == 50
  {
  }

  /** A failing call at any point yields 50. */
  lemma FailureYieldsFallback(p: Probe)
    requires p.osascript.Raises? || p.brightnessctl.ReadRaises? || p.brightnessctl == ReadExits(0, None)
    ensures GetCurrentBrightness(p) == 50
  {
  }

  /** A raw reading in [0, 255] gives a percentage in [0, 100], and a larger
      reading never gives a smaller percentage. */
  lemma PercentMonotone(a: int, b: int)
    requires 0 <= a <= b
    ensures Percent(a) <= Percent(b)
  {
    assert a * 100 <= b * 100;
  }

  /** A command the actuator runs. */
  datatype Command =
    | CtlSet(level: int)   // brightnessctl set {level}%
    | OsaSet(level: int)   // the AppleScript slider assignment

  /** The commands `set_brightness` runs for the clamped level `l`, given what
      `brightnessctl` did: AppleScript is tried only when `brightnessctl` ran
      and exited with a non-zero code. */
  function SetCommands(l: int, ctl: Call): (cs: seq<Command>)
    ensures |cs| >= 1 && cs[0] == CtlSet(l)
    ensures forall c :: c in cs ==> c.level == l
    ensures |cs| == 2 <==> ctl.Exits? && ctl.code != 0
  {
    if ctl.Exits? && ctl.code != 0 then [CtlSet(l), OsaSet(l)] else [CtlSet(l)]
  }

  /** The level is applied when `brightnessctl` succeeds, or when it fails
      with a return code and AppleScript then succeeds. */
  predicate Applied(ctl: Call, osa: Call) {
    ctl == Exits(0) || (ctl.Exits? && ctl.code != 0 && osa == Exits(0))
  }

  /** A missing `brightnessctl` raises before the fallback: AppleScript is
      never tried and nothing is applied. */
  lemma MissingControlSkipsFallback(l: int, osa: Call)
    ensures SetCommands(l, Raises) == [CtlSet(l)]
    ensures !Applied(Raises, osa)
  {
  }

  /** The commands carrying out `a` given the reading `current`. */
  function CommandsFor(current: int, a: Action, ctl: Call): (cs: seq<Command>)
    ensures Target(current, a).None? ==> cs == []
    ensures Target(current, a).Some? ==> cs == SetCommands(Target(current, a).value, ctl)
  {
    match Target(current, a)
    case None => []
    case Some(l) => SetCommands(l, ctl)
  }

  // ---------------------------------------------------------------- scenarios

  lemma ClassifyDimToThirty()
    ensures Classify(BrightnessWords, "dim to 30") == Decrease
  {
    var t := "dim to 30";
    NoneOf(BrightnessWords.increase, t, [1, 0, 0, 0, 0]);
    FoundAt(BrightnessWords.decrease, 4, t, 0);
  }

  lemma AmountDimToThirty()
    ensures Amount("dim to 30") == 30
  {
    var t := "dim to 30";
    FirstNumberIs(t, 7, 2);
    var d := t[7..9];
    assert d[0] == '3' && d[1] == '0';
    TwoDigitsValue(d);
  }

  /** The decrease words come before "to": "dim to 30" lowers the brightness
      by 30 rather than setting it to 30. */
  lemma DimToThirty()
    ensures Decide(BrightnessWords, "dim to 30") == Adjust(-30)
  {
    PlainIsNormal("dim to 30");
    ClassifyDimToThirty();
    AmountDimToThirty();
    DecreaseAction(BrightnessWords, "dim to 30");
  }

  lemma ClassifyMin()
    ensures Classify(BrightnessWords, "min") == Floor
  {
    var t := "min";
    NoneOf(BrightnessWords.increase, t, [2, 0, 0, 0, 0]);
    NoneOf(BrightnessWords.decrease, t, [0, 0, 0, 0, 0, 0]);
    MissingChar(t, "set", 0);
    MissingChar(t, "to", 0);
    FoundAt(BrightnessWords.floor, 0, t, 0);
  }

  /** "min" sets the brightness to 0. */
  lemma MinSetsZero()
    ensures Decide(BrightnessWords, "min") == SetLevel(0)
  {
    PlainIsNormal("min");
    ClassifyMin();
    DecideAt(BrightnessWords, "min", Floor);
  }

  lemma ClassifyFull()
    ensures Classify(BrightnessWords, "full") == Ceiling
  {
    var t := "full";
    NoneOf(BrightnessWords.increase, t, [0, 0, 1, 0, 0]);
    NoneOf(BrightnessWords.decrease, t, [0, 1, 0, 0, 0, 0]);
    MissingChar(t, "set", 0);
    MissingChar(t, "to", 0);
    NoneOf(BrightnessWords.floor, t, [0, 0, 0]);
    FoundAt(BrightnessWords.ceiling, 3, t, 0);
  }

  /** "full" sets the brightness to 100. */
  lemma FullSetsHundred()
    ensures Decide(BrightnessWords, "full") == SetLevel(100)
  {
    PlainIsNormal("full");
    ClassifyFull();
    DecideAt(BrightnessWords, "full", Ceiling);
  }

  // ---------------------------------------------------------------- actuator

  class Display {
    /** The panel brightness the last applied command left. */
    var level: int
    /** Every set command sent, oldest first. */
    var issued: seq<Command>

    /** The panel brightness and every level ever sent are in [0, 100]. */
    ghost predicate Valid()
      reads this
    {
      InRange(level) && forall i :: 0 <= i < |issued| ==> InRange(issued[i].level)
    }

    constructor (initial: int)
      requires InRange(initial)
      ensures Valid() && level == initial && issued == []
    {
      level := initial;
      issued := [];
    }

    /** `set_brightness(x)`: clamp, try `brightnessctl`, and fall back to
        AppleScript only on a non-zero return code. Exceptions are caught. */
    method SetBrightness(x: int, ctl: Call, osa: Call)
      modifies this
      ensures issued == old(issued) + SetCommands(Clamp(x), ctl)
      ensures level == (if Applied(ctl, osa) then Clamp(x) else old(level))
      ensures old(Valid()) ==> Valid()
    {
      var l := Clamp(x);
      issued := issued + [CtlSet(l)];
      if ctl == Exits(0) {
        level := l;
        return;
      }
      if ctl.Raises? {
        return;
      }
      issued := issued + [OsaSet(l)];
      if osa == Exits(0) {
        level := l;
      }
    }

    /** `adjust_brightness(change)`: read, add, clamp, set. */
    method AdjustBrightness(change: int, p: Probe, ctl: Call, osa: Call)
      modifies this
      ensures var target := Clamp(GetCurrentBrightness(p) + change);
        && issued == old(issued) + SetCommands(target, ctl)
        && level == (if Applied(ctl, osa) then target else old(level))
      ensures old(Valid()) ==> Valid()
    {
      var current := GetCurrentBrightness(p);
      var newBrightness := Clamp(current + change);
      ClampIdempotent(current + change);
      SetBrightness(newBrightness, ctl, osa);
    }

    /** `parse_command(command)`: the keyword chain picks an action, which is
        carried out on the actuator. */
    method ParseCommand(command: string, p: Probe, ctl: Call, osa: Call)
      modifies this
      ensures var target := Target(GetCurrentBrightness(p), Decide(BrightnessWords, command));
        && issued == old(issued) + CommandsFor(GetCurrentBrightness(p), Decide(BrightnessWords, command), ctl)
        && level == (if target.Some? && Applied(ctl, osa) then target.value else old(level))
      ensures old(Valid()) ==> Valid()
    {
      var a := Decide(BrightnessWords, command);
      CarryOut(a, p, ctl, osa);
    }

    /** The calls one branch of `parse_command` makes: adjust, set, read, or
        only a message. */
    method CarryOut(a: Action, p: Probe, ctl: Call, osa: Call)
      modifies this
      ensures var target := Target(GetCurrentBrightness(p), a);
        && issued == old(issued) + CommandsFor(GetCurrentBrightness(p), a, ctl)
        && level == (if target.Some? && Applied(ctl, osa) then target.value else old(level))
      ensures old(Valid()) ==> Valid()
    {
      match a
      case Adjust(change) => AdjustBrightness(change, p, ctl, osa);
      case SetLevel(l) => SetBrightness(l, ctl, osa);
      case ReportLevel => var current := GetCurrentBrightness(p);
      case _ =>
    }
  }

  /** When the AppleScript query succeeds, every relative command starts from
      50: "dim to 30" always targets 20. */
  lemma DimFromFallback(p: Probe)
    requires p.osascript == Exits(0)
    ensures Target(GetCurrentBrightness(p), Decide(BrightnessWords, "dim to 30")) == Some(20)
  {
    DimToThirty();
  }
}
