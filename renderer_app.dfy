/** The plain-script tutorial window: a module-level step index, the labels
    `updateUI` draws from it, and the click and advance handlers that move
    it and signal the Electron host. */
module RendererApp {
  import opened PyText
  import opened Tutorial

  /** A call into `window.electronAPI`. */
  datatype Signal = NextStep | ClosePopup | NeedHelp

  const HelpAlert := "Help requested! Your assistant will provide more guidance."

  /** What `updateUI` writes into the page. */
  datatype Labels = Labels(title: string, description: string, indicator: string,
                           percentage: string, nextButton: string)

  /** The labels for step `i`: its title, description and "Step n of 5",
      the rounded percentage, and "Finish" on the last step only. */
  function LabelsFor(i: int): (l: Labels)
    requires 0 <= i < |TutorialSteps|
    ensures l.nextButton == "Finish" <==> i == LastIndex
    ensures l.indicator == "Step " + IntToString(i + 1) + " of 5"
    ensures l.percentage == IntToString(20 * (i + 1)) + "%"
  {
    var s := TutorialSteps[i];
    StepsNumbered();
    PercentPerStep(i);
    Labels(s.title, s.description, Indicator(s),
           IntToString(RoundedPercent(s.step, s.totalSteps)) + "%",
           if i == LastIndex then "Finish" else "Next Step")
  }

  /** The index after an `onAdvanceStep` message: one on, but never past
      the last step. */
  function AfterAdvance(i: int): (r: int)
    ensures i < LastIndex ==> r == i + 1
    ensures i >= LastIndex ==> r == i
  {
    if i < LastIndex then i + 1 else i
  }

  /** `k` advance messages from the first step stop at the last one. */
  lemma {:induction false} AdvancesSaturate(k: nat)
    ensures Advances(k) == if k < LastIndex then k else LastIndex
  {
    if k > 0 {
      AdvancesSaturate(k - 1);
    }
  }

  function Advances(k: nat): int {
    if k == 0 then 0 else AfterAdvance(Advances(k - 1))
  }

  class Renderer {
    var currentStep: int
    var labels: Labels
    /** The calls made into the host, oldest first. */
    var signals: seq<Signal>
    var alerts: seq<string>

    /** The index names a step, and the page shows it. */
    predicate Valid()
      reads this
    {
      0 <= currentStep < |TutorialSteps| && labels == LabelsFor(currentStep)
    }

    /** `let currentStep = 0` and the first `updateUI()`. */
    constructor ()
      ensures Valid() && currentStep == 0 && signals == [] && alerts == []
    {
      currentStep := 0;
      labels := LabelsFor(0);
      signals := [];
      alerts := [];
    }

    /** `updateUI()` */
    method UpdateUI()
      requires 0 <= currentStep < |TutorialSteps|
      modifies this
      ensures Valid()
      ensures currentStep == old(currentStep) && signals == old(signals) && alerts == old(alerts)
    {
      labels := LabelsFor(currentStep);
    }

    /** The next button: one step on and `nextStep()`, or on the last step
        `closePopup()` and back to the first. */
    method NextClick()
      requires Valid()
      modifies this
      ensures Valid()
      ensures currentStep == AfterNext(old(currentStep))
      ensures signals == old(signals) + [if old(currentStep) < LastIndex then NextStep else ClosePopup]
      ensures alerts == old(alerts)
    {
      if currentStep < |TutorialSteps| - 1 {
        currentStep := currentStep + 1;
        UpdateUI();
        signals := signals + [NextStep];
      } else {
        signals := signals + [ClosePopup];
        currentStep := 0;
        UpdateUI();
      }
    }

    /** The help button: `needHelp()` and an alert; the step stays. */
    method HelpClick()
      modifies this
      ensures signals == old(signals) + [NeedHelp] && alerts == old(alerts) + [HelpAlert]
      ensures currentStep == old(currentStep) && labels == old(labels)
    {
      signals := signals + [NeedHelp];
      alerts := alerts + [HelpAlert];
    }

    /** The close button: `closePopup()`; the step stays. */
    method CloseClick()
      modifies this
      ensures signals == old(signals) + [ClosePopup]
      ensures currentStep == old(currentStep) && labels == old(labels) && alerts == old(alerts)
    {
      signals := signals + [ClosePopup];
    }

    /** An `onAdvanceStep` message: one step on, below the last step only,
        and nothing signalled back. */
    method AdvanceStep()
      requires Valid()
      modifies this
      ensures Valid()
      ensures currentStep == AfterAdvance(old(currentStep))
      ensures signals == old(signals) && alerts == old(alerts)
    {
      if currentStep < |TutorialSteps| - 1 {
        currentStep := currentStep + 1;
        UpdateUI();
      }
    }
  }
}
