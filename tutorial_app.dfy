/** The React tutorial window: the step index, the list of completed steps
    (each step at most once, by its number), the detailed-help switch, and
    the progress saved in the session store. */
module TutorialApp {
  import opened Wrappers
  import opened PyText
  import opened PyJson
  import opened Tutorial

  const TutorialTitle := "How to find recipes online"

  /** What the first render throws when the index names no step. */
  const NoStepData := "Cannot read properties of undefined (reading 'step')"

  /** A step as the completed list holds it. */
  function StepJson(s: TutorialStep): Json {
    JObj([Member("title", JStr(s.title)), Member("description", JStr(s.description)),
          Member("step", JNum(s.step)), Member("totalSteps", JNum(s.totalSteps))])
  }

  /** `entry.step`, when it is a number. */
  function StepNumber(entry: Json): Option<int> {
    match Index(entry, "step")
    case Some(JNum(n)) => Some(n)
    case _ => None
  }

  lemma StepNumberOfStep(s: TutorialStep)
    ensures StepNumber(StepJson(s)) == Some(s.step)
  {
    var ms := StepJson(s).members;
    assert "totalSteps" != "step";
    assert Lookup(ms, "step") == Lookup(ms[..3], "step");
    assert ms[..3][2] == Member("step", JNum(s.step));
  }

  /** `list.some(s => s.step === n)` */
  predicate HasStep(xs: seq<Json>, n: int) {
    exists i :: 0 <= i < |xs| && StepNumber(xs[i]) == Some(n)
  }

  /** No step number occurs twice in the list. */
  predicate NoDuplicateSteps(xs: seq<Json>) {
    forall i, j :: 0 <= i < j < |xs| && StepNumber(xs[i]).Some? ==> StepNumber(xs[i]) != StepNumber(xs[j])
  }

  /** The `setCompletedSteps` updater: the step is appended unless an entry
      with its number is already there. */
  function MarkCompleted(xs: seq<Json>, s: TutorialStep): (r: seq<Json>)
    ensures HasStep(r, s.step)
    ensures HasStep(xs, s.step) ==> r == xs
    ensures !HasStep(xs, s.step) ==> r == xs + [StepJson(s)]
    ensures NoDuplicateSteps(xs) ==> NoDuplicateSteps(r)
  {
    StepNumberOfStep(s);
    if HasStep(xs, s.step) then xs
    else
      var r := xs + [StepJson(s)];
      assert StepNumber(r[|xs|]) == Some(s.step);
      r
  }

  /** The first `k` steps, as a fresh run completes them. */
  function FirstSteps(k: nat): (xs: seq<Json>)
    requires k <= |TutorialSteps|
  {
    seq(k, j requires 0 <= j < k => StepJson(TutorialSteps[j]))
  }

  /** From a fresh start each press of the next button appends the step just
      left: after `k` presses the list holds the first `k` steps, in order. */
  lemma FreshRun(k: nat)
    requires k < |TutorialSteps|
    ensures !HasStep(FirstSteps(k), TutorialSteps[k].step)
    ensures MarkCompleted(FirstSteps(k), TutorialSteps[k]) == FirstSteps(k + 1)
    ensures NoDuplicateSteps(FirstSteps(k + 1))
  {
    StepsNumbered();
    var xs := FirstSteps(k);
    forall i | 0 <= i < k ensures StepNumber(xs[i]) == Some(i + 1) {
      StepNumberOfStep(TutorialSteps[i]);
    }
    var ys := FirstSteps(k + 1);
    forall i | 0 <= i < k + 1 ensures StepNumber(ys[i]) == Some(i + 1) {
      StepNumberOfStep(TutorialSteps[i]);
    }
    assert ys == xs + [StepJson(TutorialSteps[k])];
  }

  // ---------------------------------------------------------------- saved progress

  /** JavaScript's name for the type of a primitive. */
  function JsType(v: Json): string {
    match v
    case JBool(_) => "boolean"
    case JNum(_) => "number"
    case JStr(_) => "string"
    case _ => "object"
  }

  /** `String(v)` for a primitive. */
  function JsString(v: Json): string {
    match v
    case JBool(b) => if b then "true" else "false"
    case JNum(n) => IntToString(n)
    case JStr(t) => t
    case _ => "[object Object]"
  }

  /** `loadTutorialProgress()`, with the stored text and `JSON.parse` as
      parameters: nothing for a missing or empty entry; otherwise the parsed
      object, its `completedSteps` replaced by an empty list when that is
      not a list. A parse error, or a parsed value that is not an object,
      makes the app fail: null and the primitives when the property is
      read or set, a list at the first render. */
  function LoadTutorialProgress(stored: Option<string>, parse: string -> Result<Json>): (r: Result<Option<Json>>)
    ensures stored.None? || stored == Some("") ==> r == Success(None)
    ensures stored.Some? && stored.value != "" && parse(stored.value).Raised? ==>
      r == Raised(parse(stored.value).message)
    ensures stored.Some? && stored.value != "" && parse(stored.value).Success? ==>
      (r.Raised? <==> !parse(stored.value).value.JObj?)
    ensures r.Success? && r.value.Some? ==>
      && r.value.value.JObj?
      && Index(r.value.value, "completedSteps").Some? && Index(r.value.value, "completedSteps").value.JArr?
    ensures r.Success? && r.value.Some? ==> stored.Some? && stored.value != "" && parse(stored.value).Success?
    ensures r.Success? && r.value.Some? ==>
      Index(r.value.value, "currentStepIndex") == Index(parse(stored.value).value, "currentStepIndex")
    ensures r.Success? && r.value.Some? ==>
      var parsed := parse(stored.value).value;
      Index(parsed, "completedSteps").Some? && Index(parsed, "completedSteps").value.JArr? ==> r.value.value == parsed
  {
    if stored.None? || stored.value == "" then Success(None)
    else
      match parse(stored.value)
      case Raised(m) => Raised(m)
      case Success(parsed) =>
        if parsed.JNull? then Raised("Cannot read properties of null (reading 'completedSteps')")
        else if parsed.JArr? then Raised(NoStepData)
        else if !parsed.JObj? then Raised("Cannot create property 'completedSteps' on " + JsType(parsed) + " '" + JsString(parsed) + "'")
        else if Index(parsed, "completedSteps").Some? && Index(parsed, "completedSteps").value.JArr? then Success(Some(parsed))
        else
          var ms := parsed.members + [Member("completedSteps", JArr([]))];
          assert ms[|ms| - 1].key == "completedSteps";
          assert "completedSteps" != "currentStepIndex";
          assert ms[..|ms| - 1] == parsed.members;
          Success(Some(JObj(ms)))
  }

  /** The state the two `useState` initialisers give, or the exception of
      the first render, which reads `tutorial.steps[currentStep].step` and so
      fails for an index that names no step. */
  function InitialState(stored: Option<string>, parse: string -> Result<Json>): (r: Result<(int, seq<Json>)>)
    ensures r.Success? ==> 0 <= r.value.0 < |TutorialSteps|
    ensures stored.None? ==> r == Success((0, []))
    ensures (exists saved :: LoadTutorialProgress(stored, parse) == Success(Some(saved)) &&
               Index(saved, "currentStepIndex").None?) ==> r == Raised(NoStepData)
  {
    match LoadTutorialProgress(stored, parse)
    case Raised(m) => Raised(m)
    case Success(None) => Success((0, []))
    case Success(Some(saved)) =>
      match Index(saved, "currentStepIndex")
      case Some(JNum(i)) =>
        if 0 <= i < |TutorialSteps| then Success((i, Index(saved, "completedSteps").value.items))
        else Raised(NoStepData)
      case _ => Raised(NoStepData)
  }

  /** Saved progress with a usable index resumes there, with its list when
      it is one and an empty list when it is not. */
  lemma ResumeSaved(text: string, parse: string -> Result<Json>, members: seq<Member>, i: int)
    requires text != "" && parse(text) == Success(JObj(members))
    requires Lookup(members, "currentStepIndex") == Some(JNum(i)) && 0 <= i < |TutorialSteps|
    ensures var list := Lookup(members, "completedSteps");
      InitialState(Some(text), parse) ==
        Success((i, if list.Some? && list.value.JArr? then list.value.items else []))
  {
    var list := Lookup(members, "completedSteps");
    if !(list.Some? && list.value.JArr?) {
      var ms := members + [Member("completedSteps", JArr([]))];
      assert ms[..|ms| - 1] == members;
      assert "completedSteps" != "currentStepIndex";
    }
  }

  // ---------------------------------------------------------------- the component

  /** The props `App` gives `TutorialCard` (the progress percentage, a
      floating-point value, is not part of this model). */
  datatype CardProps = CardProps(
    title: string, stepTitle: string, stepDescription: string, showDetailedHelp: bool,
    stepIndicator: string, isLastStep: bool, completedSteps: seq<Json>, currentStepIndex: int)

  class App {
    /** Whether `window.electronAPI` offers `notifyStepChanged` and
        `closePopup`. */
    const hasElectron: bool
    var currentStep: int
    var completedSteps: seq<Json>
    var showDetailedHelp: bool
    /** The session store's "tutorialProgress" entry. */
    var stored: Option<string>
    /** How many times `closePopup()` has been called. */
    var closeCalls: nat
    /** The arguments of the `notifyStepChanged` calls, oldest first. */
    var notified: seq<int>

    predicate Valid()
      reads this
    {
      0 <= currentStep < |TutorialSteps|
    }

    /** The component's first state, from `InitialState`. */
    constructor (start: int, completed: seq<Json>, stored: Option<string>, hasElectron: bool)
      requires 0 <= start < |TutorialSteps|
      ensures Valid() && currentStep == start && completedSteps == completed && !showDetailedHelp
      ensures this.stored == stored && this.hasElectron == hasElectron && closeCalls == 0 && notified == []
    {
      this.hasElectron := hasElectron;
      currentStep := start;
      completedSteps := completed;
      showDetailedHelp := false;
      this.stored := stored;
      closeCalls := 0;
      notified := [];
    }

    /** What the component renders for the current state. */
    function Props(): (p: CardProps)
      requires Valid()
      reads this
      ensures p.isLastStep <==> currentStep == LastIndex
      ensures p.stepIndicator == "Step " + IntToString(currentStep + 1) + " of 5"
      ensures p.stepTitle == TutorialSteps[currentStep].title && p.currentStepIndex == currentStep
    {
      StepsNumbered();
      var s := TutorialSteps[currentStep];
      CardProps(TutorialTitle, s.title, s.description, showDetailedHelp, Indicator(s),
                currentStep == |TutorialSteps| - 1, completedSteps, currentStep)
    }

    /** The effect on `[currentStep]`: the detailed help closes. */
    method StepChanged()
      modifies this
      ensures !showDetailedHelp
      ensures currentStep == old(currentStep) && completedSteps == old(completedSteps) && stored == old(stored)
      ensures closeCalls == old(closeCalls) && notified == old(notified)
    {
      showDetailedHelp := false;
    }

    /** `handleNextStep()`: below the last step, the step is marked completed
        (once per number) and the next one shown; on the last step, it is
        marked too, the popup closes and everything starts over, the list
        emptied and the saved progress cleared. The detailed help closes in
        both cases, the step having changed. */
    method HandleNextStep()
      requires Valid()
      modifies this
      ensures Valid()
      ensures currentStep == AfterNext(old(currentStep)) && !showDetailedHelp
      ensures NoDuplicateSteps(old(completedSteps)) ==> NoDuplicateSteps(completedSteps)
      ensures old(currentStep) < LastIndex ==>
        && completedSteps == MarkCompleted(old(completedSteps), TutorialSteps[old(currentStep)])
        && stored == old(stored) && closeCalls == old(closeCalls)
        && notified == old(notified) + (if hasElectron then [old(currentStep) + 1] else [])
      ensures old(currentStep) >= LastIndex ==>
        && completedSteps == [] && stored == None && notified == old(notified)
        && closeCalls == old(closeCalls) + (if hasElectron then 1 else 0)
    {
      var before := currentStep;
      if currentStep < |TutorialSteps| - 1 {
        completedSteps := MarkCompleted(completedSteps, TutorialSteps[currentStep]);
        currentStep := currentStep + 1;
        if hasElectron {
          notified := notified + [currentStep];
        }
      } else {
        completedSteps := MarkCompleted(completedSteps, TutorialSteps[currentStep]);
        if hasElectron {
          closeCalls := closeCalls + 1;
        }
        stored := None;
        currentStep := 0;
        completedSteps := [];
      }
      if currentStep != before {
        StepChanged();
      }
    }

    /** `handleNeedHelp()`: the detailed help opens or closes. */
    method HandleNeedHelp()
      modifies this
      ensures showDetailedHelp == !old(showDetailedHelp)
      ensures currentStep == old(currentStep) && completedSteps == old(completedSteps) && stored == old(stored)
      ensures closeCalls == old(closeCalls) && notified == old(notified)
    {
      showDetailedHelp := !showDetailedHelp;
    }

    /** `handleClose()`: the popup closes; the progress stays saved. */
    method HandleClose()
      modifies this
      ensures closeCalls == old(closeCalls) + (if hasElectron then 1 else 0)
      ensures currentStep == old(currentStep) && completedSteps == old(completedSteps) && stored == old(stored)
      ensures showDetailedHelp == old(showDetailedHelp) && notified == old(notified)
    {
      if hasElectron {
        closeCalls := closeCalls + 1;
      }
    }
  }
}
