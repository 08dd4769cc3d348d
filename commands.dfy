/** The keyword decision shared by the text-command volume and brightness
    agents. Both lowercase and strip the command, then try a fixed chain of
    keyword groups with Python's substring `in`, take the first run of digits
    as the amount (10 when there is none), and ask the actuator either for a
    relative change, an absolute level, or nothing. The agents differ only in
    their word lists, which a `Vocabulary` holds. */
module LevelCommands {
  import opened Wrappers
  import opened PyText
  import opened Levels

  /** The word groups of one agent, in the order the chain tries them; the
      "set"/"to" test sits between `decrease` and `floor` in every agent. */
  datatype Vocabulary = Vocabulary(
    increase: seq<string>,
    decrease: seq<string>,
    floor: seq<string>,     // words that set the level to 0
    ceiling: seq<string>,   // words that set the level to 100
    status: seq<string>)

  /** The amount used when a relative command names no number. */
  const DefaultStep := 10

  /** The branch of the if/elif chain a command takes. */
  datatype Branch = Increase | Decrease | SetTo | Floor | Ceiling | Status | Unrecognized

  /** What the chosen branch asks of the actuator. */
  datatype Action =
    | Adjust(change: int)   // adjust_*(change)
    | SetLevel(level: int)  // set_*(level)
    | AskForLevel           // "set"/"to" without a number: only a message
    | ReportLevel           // read and report the current level
    | ShowHelp              // not recognised: only a message

  /** `command.lower().strip()`: a lowercase text without surrounding
      blanks, empty exactly when the command is blank. */
  function Normalize(command: string): (t: string)
    ensures IsLower(t)
    ensures t == [] || (!IsSpace(t[0]) && !IsSpace(t[|t| - 1]))
    ensures t == [] <==> IsBlank(command)
  {
    NormalizeShape(command);
    Strip(Lower(command))
  }

  lemma NormalizeShape(command: string)
    ensures IsLower(Strip(Lower(command)))
    ensures Strip(Lower(command)) == [] <==> IsBlank(command)
  {
    LowerStripCommute(command);
    var s := Strip(command);
    LowerIsLower(s);
    assert |Lower(s)| == |s|;
  }

  /** Normalising twice is normalising once. */
  lemma NormalizeIdempotent(command: string)
    ensures Normalize(Normalize(command)) == Normalize(command)
  {
    var t := Normalize(command);
    LowerIsLower(command);
    LowerStripCommute(Lower(command));
    StripIdempotent(Lower(command));
    StripIdempotent(t);
  }

  /** The keyword groups tried in a fixed order; the first that matches wins.
      A group's branch is taken only when one of its words occurs, and the
      help message exactly when nothing does. */
  function Classify(v: Vocabulary, t: string): (b: Branch)
    ensures b == Increase ==> AnyIn(v.increase, t)
    ensures b == Decrease ==> AnyIn(v.decrease, t)
    ensures b == SetTo ==> Contains(t, "set") || Contains(t, "to")
    ensures b == Floor ==> AnyIn(v.floor, t)
    ensures b == Ceiling ==> AnyIn(v.ceiling, t)
    ensures b == Status ==> AnyIn(v.status, t)
    ensures b == Unrecognized <==>
      && !AnyIn(v.increase, t) && !AnyIn(v.decrease, t) && !Contains(t, "set") && !Contains(t, "to")
      && !AnyIn(v.floor, t) && !AnyIn(v.ceiling, t) && !AnyIn(v.status, t)
  {
    if AnyIn(v.increase, t) then Increase
    else if AnyIn(v.decrease, t) then Decrease
    else if Contains(t, "set") || Contains(t, "to") then SetTo
    else if AnyIn(v.floor, t) then Floor
    else if AnyIn(v.ceiling, t) then Ceiling
    else if AnyIn(v.status, t) then Status
    else Unrecognized
  }

  /** `int(numbers[0]) if numbers else 10` */
  function Amount(t: string): (n: int)
    ensures n >= 0
    ensures FirstNumber(t).Some? ==> n == FirstNumber(t).value
    ensures FirstNumber(t).None? ==> n == DefaultStep
  {
    FirstNumber(t).GetOr(DefaultStep)
  }

  /** The decision `parse_command` takes for `command`: a relative change
      exactly for the increase and decrease words, a set level that is never
      negative, a report exactly for the status words and the help message
      exactly for unrecognised text. */
  function Decide(v: Vocabulary, command: string): (a: Action)
    ensures var b := Classify(v, Normalize(command));
      && (a.Adjust? <==> b == Increase || b == Decrease)
      && (a.SetLevel? ==> a.level >= 0)
      && (a == ReportLevel <==> b == Status)
      && (a == ShowHelp <==> b == Unrecognized)
  {
    ActionFor(v, Normalize(command))
  }

  /** The decision for a command already lowercased and stripped. */
  function ActionFor(v: Vocabulary, t: string): (a: Action)
    ensures var b := Classify(v, t);
      && (a.Adjust? <==> b == Increase || b == Decrease)
      && (a.SetLevel? ==> a.level >= 0)
      && (a == ReportLevel <==> b == Status)
      && (a == ShowHelp <==> b == Unrecognized)
  {
    match Classify(v, t)
    case Increase => Adjust(Amount(t))
    case Decrease => Adjust(-Amount(t))
    case SetTo => if FirstNumber(t).Some? then SetLevel(Amount(t)) else AskForLevel
    case Floor => SetLevel(0)
    case Ceiling => SetLevel(100)
    case Status => ReportLevel
    case Unrecognized => ShowHelp
  }

  /** The level the actuator is asked to write when it carries out `a` having
      read `current`, or `None` when `a` writes nothing. */
  function Target(current: int, a: Action): (r: Option<int>)
    ensures r.Some? <==> a.Adjust? || a.SetLevel?
    ensures r.Some? ==> InRange(r.value)
    ensures a.Adjust? && InRange(current + a.change) ==> r == Some(current + a.change)
    ensures a.SetLevel? && InRange(a.level) ==> r == Some(a.level)
  {
    match a
    case Adjust(c) => Some(Clamp(current + c))
    case SetLevel(l) => Some(Clamp(l))
    case _ => None
  }

  // ---------------------------------------------------------------- properties

  /** The decision depends on the normalised text only. */
  lemma DecideOnNormalForm(v: Vocabulary, command: string)
    ensures Decide(v, Normalize(command)) == Decide(v, command)
  {
    NormalizeIdempotent(command);
  }

  /** Exactly one branch is taken, and it is the first keyword group that
      matches: a later group runs only when every earlier group is absent. */
  lemma BranchPriority(v: Vocabulary, t: string)
    ensures Classify(v, t) == Increase <==> AnyIn(v.increase, t)
    ensures Classify(v, t) == Decrease <==> !AnyIn(v.increase, t) && AnyIn(v.decrease, t)
    ensures Classify(v, t) == SetTo <==>
      !AnyIn(v.increase, t) && !AnyIn(v.decrease, t) && (Contains(t, "set") || Contains(t, "to"))
    ensures Classify(v, t) in {Floor, Ceiling, Status, Unrecognized} ==>
      !AnyIn(v.increase, t) && !AnyIn(v.decrease, t) && !Contains(t, "set") && !Contains(t, "to")
    ensures Classify(v, t) == Floor <==> Classify(v, t) !in {Increase, Decrease, SetTo} && AnyIn(v.floor, t)
    ensures Classify(v, t) == Ceiling <==>
      Classify(v, t) !in {Increase, Decrease, SetTo, Floor} && AnyIn(v.ceiling, t)
    ensures Classify(v, t) == Status <==>
      Classify(v, t) !in {Increase, Decrease, SetTo, Floor, Ceiling} && AnyIn(v.status, t)
  {
  }

  /** An increase changes the level by exactly the first number in the text,
      or by the default step of 10 when there is none. */
  lemma IncreaseAmount(v: Vocabulary, command: string)
    ensures Classify(v, Normalize(command)) == Increase ==> Decide(v, command) == Adjust(Amount(Normalize(command)))
  {
  }

  /** A decrease changes the level by the negated amount. */
  lemma DecreaseAmount(v: Vocabulary, command: string)
    ensures Classify(v, Normalize(command)) == Decrease ==> Decide(v, command) == Adjust(-Amount(Normalize(command)))
  {
    DecreaseAction(v, Normalize(command));
  }

  lemma DecreaseAction(v: Vocabulary, t: string)
    ensures Classify(v, t) == Decrease ==> ActionFor(v, t) == Adjust(-Amount(t))
  {
  }

  /** "set"/"to" without digits, status words and unrecognised text make no
      write. */
  lemma NoWriteBranches(v: Vocabulary, command: string, current: int)
    ensures var b := Classify(v, Normalize(command));
      (b in {Status, Unrecognized} || (b == SetTo && FirstNumber(Normalize(command)).None?)) ==>
        Target(current, Decide(v, command)).None?
  {
    var t := Normalize(command);
    if Classify(v, t) == Status {
      assert Decide(v, command) == ReportLevel;
    } else if Classify(v, t) == Unrecognized {
      assert Decide(v, command) == ShowHelp;
    } else if Classify(v, t) == SetTo && FirstNumber(t).None? {
      assert Decide(v, command) == AskForLevel;
    }
  }

  /** "set"/"to" with a number writes that number, clamped. */
  lemma SetToNumber(v: Vocabulary, command: string, current: int)
    ensures var t := Normalize(command);
      Classify(v, t) == SetTo && FirstNumber(t).Some? ==>
        Target(current, Decide(v, command)) == Some(Clamp(FirstNumber(t).value))
  {
  }

  /** The floor words write 0. */
  lemma FloorWritesZero(v: Vocabulary, command: string, current: int)
    ensures Classify(v, Normalize(command)) == Floor ==> Target(current, Decide(v, command)) == Some(0)
  {
    var t := Normalize(command);
    if Classify(v, t) == Floor {
      assert Decide(v, command) == ActionFor(v, t);
      ActionAt(v, t, Floor);
    }
  }

  /** The ceiling words write 100. */
  lemma CeilingWritesHundred(v: Vocabulary, command: string, current: int)
    ensures Classify(v, Normalize(command)) == Ceiling ==> Target(current, Decide(v, command)) == Some(100)
  {
    var t := Normalize(command);
    if Classify(v, t) == Ceiling {
      assert Decide(v, command) == ActionFor(v, t);
      ActionAt(v, t, Ceiling);
    }
  }

  /** Clamping the target again, as `set_*` does when `adjust_*` calls it,
      changes nothing. */
  lemma TargetReclampIsIdentity(current: int, a: Action)
    requires Target(current, a).Some?
    ensures Clamp(Target(current, a).value) == Target(current, a).value
  {
    ClampIdempotent(Target(current, a).value);
  }

  // ---------------------------------------------------------------- scenarios

  /** A lowercase text without surrounding whitespace is already normal. */
  lemma PlainIsNormal(t: string)
    requires IsLower(t) && t != [] && !IsSpace(t[0]) && !IsSpace(t[|t| - 1])
    ensures Normalize(t) == t
  {
    AlreadyNormal(t);
  }

  /** A normal text is decided as it is classified. */
  lemma DecideAt(v: Vocabulary, t: string, b: Branch)
    requires Normalize(t) == t && Classify(v, t) == b
    ensures b == Increase ==> Decide(v, t) == Adjust(Amount(t))
    ensures b == SetTo && FirstNumber(t).None? ==> Decide(v, t) == AskForLevel
    ensures b == Floor ==> Decide(v, t) == SetLevel(0)
    ensures b == Ceiling ==> Decide(v, t) == SetLevel(100)
  {
    assert Decide(v, t) == ActionFor(v, t);
    ActionAt(v, t, b);
  }

  /** The action of each branch, for a text whose branch is known. */
  lemma ActionAt(v: Vocabulary, t: string, b: Branch)
    requires Classify(v, t) == b
    ensures b == Increase ==> ActionFor(v, t) == Adjust(Amount(t))
    ensures b == Decrease ==> ActionFor(v, t) == Adjust(-Amount(t))
    ensures b == SetTo && FirstNumber(t).Some? ==> ActionFor(v, t) == SetLevel(Amount(t))
    ensures b == SetTo && FirstNumber(t).None? ==> ActionFor(v, t) == AskForLevel
    ensures b == Floor ==> ActionFor(v, t) == SetLevel(0)
    ensures b == Ceiling ==> ActionFor(v, t) == SetLevel(100)
    ensures b == Status ==> ActionFor(v, t) == ReportLevel
    ensures b == Unrecognized ==> ActionFor(v, t) == ShowHelp
  {
  }

  /** The first number of `t` is the run of `n` digits at `k`. */
  lemma FirstNumberIs(t: string, k: nat, n: nat)
    requires k + n <= |t| && n > 0
    requires forall i :: 0 <= i < k ==> !IsDigit(t[i])
    requires AllDigits(t[k..k + n])
    requires k + n == |t| || !IsDigit(t[k + n])
    ensures FirstNumber(t) == Some(DigitsValue(t[k..k + n]))
  {
    assert IsDigit(t[k..k + n][0]);
    assert FirstDigitFrom(t, 0) == k;
    DigitRunIs(t, k, n);
  }

  lemma {:induction false} DigitRunIs(t: string, k: nat, n: nat)
    requires k + n <= |t|
    requires AllDigits(t[k..k + n])
    requires k + n == |t| || !IsDigit(t[k + n])
    decreases n
    ensures DigitRun(t, k) == n
  {
    if n > 0 {
      assert IsDigit(t[k..k + n][0]);
      assert t[k + 1..k + 1 + (n - 1)] == t[k..k + n][1..];
      DigitRunIs(t, k + 1, n - 1);
    }
  }
}
