/** The text-command volume agent: its vocabulary for the shared keyword
    decision, and the actuator that reads and writes the system output volume.
    The actuator is a class whose `level` field stands for the volume
    `osascript` reports and whose `writes` field records every value sent to
    `set volume output volume`. */
module Volume {
  import opened Wrappers
  import opened PyText
  import opened Levels
  import opened LevelCommands

  /** The word groups of `parse_command`, in chain order; "mute" is the one
      floor word. */
  const VolumeWords := Vocabulary(
    ["increase", "raise", "up", "louder", "higher"],
    ["decrease", "lower", "down", "quieter", "softer"],
    ["mute"],
    ["max", "maximum", "full"],
    ["current", "status", "what", "level"])

  /** Whether the branch for `a` reads the volume first (`adjust_volume` and
      the status branch call `get_current_volume`). */
  predicate Reads(a: Action) {
    a.Adjust? || a.ReportLevel?
  }

  /** Whether a `set volume output volume` command is sent: the branch
      writes, and an adjustment's read gave a number. `readable` says whether
      `get_current_volume` returns the volume or its `int` conversion raises. */
  predicate Sent(a: Action, readable: bool) {
    a.SetLevel? || (a.Adjust? && readable)
  }

  /** Whether carrying out `a` raises out of `parse_command`: a read whose
      output is no number, or a set command that `check=True` rejects. */
  predicate Fails(a: Action, readable: bool, osa: Call) {
    (Reads(a) && !readable) || (Sent(a, readable) && osa != Exits(0))
  }

  /** The volume after the actuator carries out `a` from `level`, when the
      set command (if one is sent) ends as `osa`. */
  function LevelAfter(level: int, a: Action, readable: bool, osa: Call): (r: int)
    ensures r == level || Some(r) == Target(level, a)
    ensures Fails(a, readable, osa) || Target(level, a).None? ==> r == level
    ensures !Fails(a, readable, osa) && Target(level, a).Some? ==> r == Target(level, a).value
  {
    if Sent(a, readable) && osa == Exits(0) then Target(level, a).value else level
  }

  /** The values sent to the actuator when it carries out `a` from `level`. */
  function WritesOf(level: int, a: Action, readable: bool): (w: seq<int>)
    ensures |w| <= 1
    ensures w == [] <==> Target(level, a).None? || (a.Adjust? && !readable)
    ensures forall x :: x in w ==> Some(x) == Target(level, a)
  {
    if Sent(a, readable) then [Target(level, a).value] else []
  }

  /** Every command leaves a volume in [0, 100] there; every value it writes
      is in [0, 100], and becomes the new volume unless the command raised. */
  lemma CommandKeepsRange(command: string, level: int, readable: bool, osa: Call)
    requires InRange(level)
    ensures InRange(LevelAfter(level, Decide(VolumeWords, command), readable, osa))
    ensures forall w :: w in WritesOf(level, Decide(VolumeWords, command), readable) ==>
      && InRange(w)
      && (!Fails(Decide(VolumeWords, command), readable, osa) ==>
            w == LevelAfter(level, Decide(VolumeWords, command), readable, osa))
  {
  }

  /** A command raises exactly when the volume should have changed and did
      not, or when a read found no number. */
  lemma FailureKeepsVolume(level: int, a: Action, readable: bool, osa: Call)
    requires Target(level, a).Some? && Target(level, a) != Some(level)
    ensures Fails(a, readable, osa) <==> LevelAfter(level, a, readable, osa) == level
  {
  }

  // ---------------------------------------------------------------- scenarios

  lemma AmountIncreaseBy20()
    ensures Amount("increase volume by 20") == 20
  {
    var t := "increase volume by 20";
    FirstNumberIs(t, 19, 2);
    var d := t[19..21];
    assert d[0] == '2' && d[1] == '0';
    TwoDigitsValue(d);
  }

  lemma ClassifyIncreaseBy20()
    ensures Classify(VolumeWords, "increase volume by 20") == Increase
  {
    FoundAt(VolumeWords.increase, 0, "increase volume by 20", 0);
  }

  /** "increase volume by 20" raises the volume by 20. */
  lemma IncreaseBy20()
    ensures Decide(VolumeWords, "increase volume by 20") == Adjust(20)
  {
    var t := "increase volume by 20";
    PlainIsNormal(t);
    ClassifyIncreaseBy20();
    AmountIncreaseBy20();
    DecideAt(VolumeWords, t, Increase);
  }

  lemma ClassifyMute(t: string, i: nat)
    requires t in {"mute", "unmute"} && OccursAt(t, "mute", i)
    ensures Classify(VolumeWords, t) == Floor
  {
    NoneOf(VolumeWords.increase, t, [0, 0, 1, 0, 0]);
    NoneOf(VolumeWords.decrease, t, [0, 0, 0, 0, 0]);
    MissingChar(t, "set", 0);
    MissingChar(t, "to", 1);
    FoundAt(VolumeWords.floor, 0, t, i);
  }

  /** "mute" sets the volume to 0. */
  lemma MuteSetsZero()
    ensures Decide(VolumeWords, "mute") == SetLevel(0)
  {
    PlainIsNormal("mute");
    ClassifyMute("mute", 0);
    DecideAt(VolumeWords, "mute", Floor);
  }

  /** Substring matching: "unmute" contains "mute" and so sets the volume to 0. */
  lemma UnmuteMutes()
    ensures Decide(VolumeWords, "unmute") == SetLevel(0)
  {
    PlainIsNormal("unmute");
    ClassifyMute("unmute", 2);
    DecideAt(VolumeWords, "unmute", Floor);
  }

  lemma ClassifyToMax()
    ensures Classify(VolumeWords, "turn volume to max") == SetTo
  {
    var t := "turn volume to max";
    NoneOf(VolumeWords.increase, t, [2, 2, 1, 3, 1]);
    NoneOf(VolumeWords.decrease, t, [0, 2, 0, 0, 0]);
    assert OccursAt(t, "to", 12);
  }

  lemma NoNumberInToMax()
    ensures FirstNumber("turn volume to max").None?
  {
    var t := "turn volume to max";
    assert forall i :: 0 <= i < |t| ==> !IsDigit(t[i]);
  }

  /** "to" is tested before the max words, so "turn volume to max" writes
      nothing: the "set"/"to" branch finds no number. */
  lemma ToShadowsMax()
    ensures Decide(VolumeWords, "turn volume to max") == AskForLevel
  {
    PlainIsNormal("turn volume to max");
    ClassifyToMax();
    NoNumberInToMax();
    DecideAt(VolumeWords, "turn volume to max", SetTo);
  }

  /** "mute" whose set command fails raises, after sending 0, and leaves
      the volume as it was. */
  lemma FailedMuteKeepsVolume(level: int, readable: bool, osa: Call)
    requires osa != Exits(0)
    ensures Fails(Decide(VolumeWords, "mute"), readable, osa)
    ensures WritesOf(level, Decide(VolumeWords, "mute"), readable) == [0]
    ensures LevelAfter(level, Decide(VolumeWords, "mute"), readable, osa) == level
  {
    MuteSetsZero();
  }

  // ---------------------------------------------------------------- actuator

  class SystemVolume {
    /** The output volume the operating system reports. */
    var level: int
    /** Every value sent to `set volume output volume`, oldest first. */
    var writes: seq<int>

    ghost predicate Valid()
      reads this
    {
      InRange(level)
    }

    constructor (initial: int)
      requires InRange(initial)
      ensures Valid() && level == initial && writes == []
    {
      level := initial;
      writes := [];
    }

    /** `get_current_volume()`: the volume, or `None` when `int` raises on
        output that is no number. */
    method GetCurrentVolume(readable: bool) returns (v: Option<int>)
      ensures readable ==> v == Some(level)
      ensures !readable ==> v.None?
    {
      if readable {
        v := Some(level);
      } else {
        v := None;
      }
    }

    /** `set_volume(x)`: one write of the clamped value; a failure of
        `osascript` raises and leaves the volume unchanged. */
    method SetVolume(x: int, osa: Call) returns (raised: bool)
      modifies this
      ensures raised <==> osa != Exits(0)
      ensures level == (if raised then old(level) else Clamp(x))
      ensures writes == old(writes) + [Clamp(x)]
      ensures old(Valid()) ==> Valid()
    {
      var l := Clamp(x);
      writes := writes + [l];
      raised := osa != Exits(0);
      if !raised {
        level := l;
      }
    }

    /** `adjust_volume(change)`: reads the volume, then writes
        `clamp(current + change)` once. A read that raises sends nothing; a
        write that fails raises and leaves the volume unchanged. */
    method AdjustVolume(change: int, readable: bool, osa: Call) returns (raised: bool)
      modifies this
      ensures raised <==> !readable || osa != Exits(0)
      ensures level == (if raised then old(level) else Clamp(old(level) + change))
      ensures writes == old(writes) + (if readable then [Clamp(old(level) + change)] else [])
      ensures old(Valid()) ==> Valid()
    {
      var current := GetCurrentVolume(readable);
      if current.None? {
        return true;
      }
      var newVolume := Clamp(current.value + change);
      writes := writes + [newVolume];
      raised := osa != Exits(0);
      if !raised {
        level := newVolume;
      }
    }

    /** `parse_command(command)`: the keyword chain picks an action, which is
        carried out on the actuator; `raised` says whether an exception
        leaves `parse_command`. */
    method ParseCommand(command: string, readable: bool, osa: Call) returns (raised: bool)
      modifies this
      ensures raised == Fails(Decide(VolumeWords, command), readable, osa)
      ensures level == LevelAfter(old(level), Decide(VolumeWords, command), readable, osa)
      ensures writes == old(writes) + WritesOf(old(level), Decide(VolumeWords, command), readable)
      ensures old(Valid()) ==> Valid()
    {
      var a := Decide(VolumeWords, command);
      raised := CarryOut(a, readable, osa);
    }

    /** The calls one branch of `parse_command` makes: adjust, set, read, or
        only a message. */
    method CarryOut(a: Action, readable: bool, osa: Call) returns (raised: bool)
      modifies this
      ensures raised == Fails(a, readable, osa)
      ensures level == LevelAfter(old(level), a, readable, osa)
      ensures writes == old(writes) + WritesOf(old(level), a, readable)
      ensures old(Valid()) ==> Valid()
    {
      match a
      case Adjust(change) => raised := AdjustVolume(change, readable, osa);
      case SetLevel(l) => raised := SetVolume(l, osa);
      case ReportLevel =>
        var current := GetCurrentVolume(readable);
        raised := current.None?;
      case _ => raised := false;
    }
  }
}
