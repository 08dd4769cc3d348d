/** The recipe-search tutorial that both Electron front ends show: five
    steps, each with its title, description, number and the total, and the
    "Step n of total" indicator and rounded percentage drawn from them. */
module Tutorial {
  import opened PyText

  datatype TutorialStep = TutorialStep(title: string, description: string, step: int, totalSteps: int)

  /** The five steps, in order (the React version's long help texts are
      not part of this model). */
  const TutorialSteps: seq<TutorialStep> := [
    TutorialStep("1. Open Google", "Go to the Internet, and type www.google.com", 1, 5),
    TutorialStep("2. Search for recipes", "Type 'easy dinner recipes' in the search box and press Enter", 2, 5),
    TutorialStep("3. Browse results", "Look through the search results and click on a recipe that looks good", 3, 5),
    TutorialStep("4. Read the recipe", "Scroll down to see the ingredients and cooking instructions", 4, 5),
    TutorialStep("5. Save or print", "Click the print button or bookmark the page to save it for later", 5, 5)
  ]

  /** The index of the last step. */
  const LastIndex := |TutorialSteps| - 1

  /** Step `i` is numbered `i + 1` of five, so the numbers are distinct. */
  lemma StepsNumbered()
    ensures |TutorialSteps| == 5
    ensures forall i :: 0 <= i < |TutorialSteps| ==> TutorialSteps[i].step == i + 1 && TutorialSteps[i].totalSteps == 5
    ensures forall i, j :: 0 <= i < j < |TutorialSteps| ==> TutorialSteps[i].step != TutorialSteps[j].step
  {
  }

  /** `Step ${step.step} of ${step.totalSteps}` */
  function Indicator(s: TutorialStep): string {
    "Step " + IntToString(s.step) + " of " + IntToString(s.totalSteps)
  }

  /** `Math.round((step / totalSteps) * 100)` on exact ratios: the nearest
      whole percentage, halves rounded up. */
  function RoundedPercent(step: int, totalSteps: int): (p: int)
    requires totalSteps > 0
    ensures 2 * totalSteps * p <= 200 * step + totalSteps < 2 * totalSteps * (p + 1)
  {
    (200 * step + totalSteps) / (2 * totalSteps)
  }

  /** The five steps are 20, 40, 60, 80 and 100 percent of the way. */
  lemma PercentPerStep(i: nat)
    requires i < |TutorialSteps|
    ensures RoundedPercent(TutorialSteps[i].step, TutorialSteps[i].totalSteps) == 20 * (i + 1)
  {
    StepsNumbered();
  }

  /** The index after a press of the next button: one on, or back to the
      first step from the last. */
  function AfterNext(i: int): (r: int)
    ensures 0 <= i < LastIndex ==> r == i + 1
    ensures i >= LastIndex ==> r == 0
  {
    if i < LastIndex then i + 1 else 0
  }

  /** `k` presses from the first step land on step `k mod 5`: the
      tutorial starts over after its last step. */
  lemma {:induction false} NextPressesCycle(k: nat)
    ensures Presses(k) == k % |TutorialSteps|
  {
    if k > 0 {
      NextPressesCycle(k - 1);
    }
  }

  /** The index after `k` presses of the next button from the first step. */
  function Presses(k: nat): int {
    if k == 0 then 0 else AfterNext(Presses(k - 1))
  }
}
