/** The desktop task helper: the user types a task, the language model's
    reply is cut down to its JSON, parsed and defaulted, and the steps are
    shown one at a time in `StepGuidePopup`. The JSON extraction here is the
    one the popup and web variants of the helper use as well. The model call
    and `json.loads` are inputs: the reply (or the fact that the call raised)
    and a parse function that succeeds or raises. */
module TaskHelper {
  import opened Wrappers
  import opened PyText
  import opened PyJson
  import opened Fences

  // ---------------------------------------------------------------- extraction

  /** The text handed to `json.loads`: after the first "```json", the
      stripped text up to the next "```"; otherwise, when a "{" occurs, the
      span from the first "{" through the last "}"; otherwise the reply.
      `find` answers -1 for a missing closing fence, which as a slice bound
      means one character before the end. */
  function ExtractJson(reply: string): (r: string)
    ensures |r| <= |reply|
    ensures Contains(reply, JsonFence) ==> r == [] || (!IsSpace(r[0]) && !IsSpace(r[|r| - 1]))
    ensures !Contains(reply, JsonFence) && !Contains(reply, "{") ==> r == reply
  {
    if Contains(reply, JsonFence) then
      var start := Find(reply, JsonFence) + 7;
      Strip(Slice(reply, start, FindFrom(reply, Fence, start)))
    else if Contains(reply, "{") then
      Slice(reply, Find(reply, "{"), RFind(reply, "}") + 1)
    else reply
  }

  /** A body inside a json fence comes back stripped, whatever precedes the
      fence and whatever follows its closing fence. */
  lemma FencedReply(pre: string, body: string, post: string)
    requires NoBacktick(pre) && NoBacktick(body)
    ensures ExtractJson(pre + JsonFence + body + Fence + post) == Strip(body)
  {
    var p := pre + JsonFence;
    var s := p + body + Fence + post;
    var start := |pre| + 7;
    ConcatAssoc(p + body, Fence, post);
    ConcatAssoc(p, body, Fence + post);
    JsonFenceAt(pre, body + (Fence + post));
    assert forall i :: start <= i < start + |body| ==> s[i] == body[i - start];
    assert s[start + |body|..start + |body| + 3] == Fence;
    FindAfterStretch(s, Fence, start, |body|);
    assert s[start..start + |body|] == body;
    FencedSlice(s, start, start + |body|);
  }

  /** With a json fence found at `start - 7` and the next fence at `end`,
      the stripped text between them is taken. */
  lemma FencedSlice(s: string, start: nat, end: nat)
    requires Contains(s, JsonFence) && Find(s, JsonFence) + 7 == start <= end <= |s|
    requires FindFrom(s, Fence, start) == end
    ensures ExtractJson(s) == Strip(s[start..end])
  {
    assert Slice(s, start, FindFrom(s, Fence, start)) == s[start..end];
  }

  /** The first json fence of `pre + "```json" + rest` is the one after `pre`. */
  lemma JsonFenceAt(pre: string, rest: string)
    requires NoBacktick(pre)
    ensures Find(pre + JsonFence + rest, JsonFence) == |pre|
  {
    var s := pre + JsonFence + rest;
    assert forall i :: 0 <= i < |pre| ==> s[i] == pre[i];
    assert s[|pre|..|pre| + 7] == JsonFence;
    FindAfterStretch(s, JsonFence, 0, |pre|);
  }

  /** Without a closing fence the slice ends one character early: the last
      character of the body is lost. */
  lemma UnclosedFence(pre: string, body: string)
    requires NoBacktick(pre) && NoBacktick(body)
    ensures body != [] ==> ExtractJson(pre + JsonFence + body) == Strip(body[..|body| - 1])
    ensures body == [] ==> ExtractJson(pre + JsonFence + body) == []
  {
    var s := pre + JsonFence + body;
    var start := |pre| + 7;
    JsonFenceAt(pre, body);
    assert s[start..] == body;
    assert forall i :: start <= i < |s| ==> s[i] == body[i - start];
    FindNothingAfter(s, Fence, start);
    UnclosedSlice(s, start);
    TailSlice(s, start, body);
  }

  /** With a json fence found at `start - 7` and no fence after it, the slice
      ends at index -1. */
  lemma UnclosedSlice(s: string, start: nat)
    requires Contains(s, JsonFence) && Find(s, JsonFence) + 7 == start <= |s|
    requires FindFrom(s, Fence, start) == -1
    ensures ExtractJson(s) == Strip(Slice(s, start, -1))
  {
  }

  /** `s[start:-1]` of a text ending in `body` from `start` is the body
      without its last character. */
  lemma TailSlice(s: string, start: nat, body: string)
    requires start <= |s| && s[start..] == body
    ensures body != [] ==> Slice(s, start, -1) == body[..|body| - 1]
    ensures body == [] ==> Slice(s, start, -1) == []
  {
    if body != [] {
      assert s[start..|s| - 1] == body[..|body| - 1];
    }
  }

  /** Without a json fence, the span from the first "{" through the last "}"
      is taken; when the last "}" comes before the first "{" (or there is
      none) nothing is. */
  lemma BraceSpan(reply: string)
    requires !Contains(reply, JsonFence) && Contains(reply, "{")
    ensures var f, l := Find(reply, "{"), RFind(reply, "}");
      && (f < l ==> ExtractJson(reply) == reply[f..l + 1])
      && (f < l ==> ExtractJson(reply)[0] == '{' && ExtractJson(reply)[l - f] == '}')
      && (l < f ==> ExtractJson(reply) == [])
  {
    var f, l := Find(reply, "{"), RFind(reply, "}");
    assert reply[f..f + 1] == "{";
    if l >= 0 {
      assert reply[l..l + 1] == "}";
    }
  }

  /** A bare object text without backticks is handed to `json.loads`
      unchanged. */
  lemma BareObject(s: string)
    requires |s| >= 2 && s[0] == '{' && s[|s| - 1] == '}' && NoBacktick(s)
    ensures ExtractJson(s) == s
  {
    MissingChar(s, JsonFence, 0);
    assert s[0..1] == "{";
    assert s[|s| - 1..|s|] == "}";
    assert OccursAt(s, "}", |s| - 1);
    assert s[0..|s|] == s;
  }

  // ---------------------------------------------------------------- steps

  /** A step whose "id" and "instruction" can both be read. */
  predicate IsStep(step: Json) {
    Index(step, "id").Some? && Index(step, "instruction").Some?
  }

  /** The exception reading `step['id']` and then `step['instruction']`
      raises, if any. */
  function StepError(step: Json): (r: Option<string>)
    ensures r.None? <==> IsStep(step)
  {
    match Subscript(step, "id")
    case Raised(m) => Some(m)
    case Success(_) =>
      match Subscript(step, "instruction")
      case Raised(m) => Some(m)
      case Success(_) => None
  }

  /** The exception of the first step, in list order, whose fields cannot
      be read. */
  function FirstStepError(xs: seq<Json>): (r: Option<string>)
    ensures r.None? <==> forall i :: 0 <= i < |xs| ==> IsStep(xs[i])
    ensures r.Some? ==> exists i :: 0 <= i < |xs| && StepError(xs[i]) == r
  {
    if xs == [] then None
    else if StepError(xs[0]).Some? then StepError(xs[0])
    else
      var r := FirstStepError(xs[1..]);
      assert forall i :: 0 <= i < |xs| - 1 ==> xs[1..][i] == xs[i + 1];
      r
  }

  const ZeroDivision := "division by zero"

  /** The exception `StepGuidePopup(...)` raises while drawing its first
      screen for `steps`: `len` of a value that has none, the division by a
      length of 0, `steps[0]` on a dict (a `KeyError` for 0) or on a string
      (whose one-character element takes no key), and otherwise the first
      step whose "id" or "instruction" cannot be read. */
  function PopupError(steps: Json): (r: Option<string>)
    ensures r.None? <==>
      steps.JArr? && steps.items != [] && forall i :: 0 <= i < |steps.items| ==> IsStep(steps.items[i])
  {
    match steps
    case JArr(xs) => if xs == [] then Some(ZeroDivision) else FirstStepError(xs)
    case JObj(ms) => if ms == [] then Some(ZeroDivision) else Some("0")
    case JStr(s) => if s == [] then Some(ZeroDivision) else Some("string indices must be integers, not 'str'")
    case _ => Some("object of type '" + TypeName(steps) + "' has no len()")
  }

  // ---------------------------------------------------------------- process_task

  /** What `MainApp.process_task` ends in. */
  datatype TaskOutcome =
    | KeyMissing                            // "API Key Missing"; no model call
    | Shown(title: Json, steps: seq<Json>)  // a StepGuidePopup
    | NoSteps                               // "Could not break down the task"
    | Failed(message: string)               // the text of the error dialog

  const FailurePrefix := "Failed to process task:\n"

  /** `process_task(task)`, with `hasClient` saying whether a Gemini key was
      configured. */
  function ProcessTask(task: string, hasClient: bool, reply: Result<string>,
                       parse: string -> Result<Json>): (o: TaskOutcome)
    ensures o.KeyMissing? <==> !hasClient
    ensures o.Shown? ==> Readable(o.steps)
    ensures o.Failed? ==> StartsWith(o.message, FailurePrefix)
  {
    if !hasClient then KeyMissing
    else
      match reply
      case Raised(m) => Failed(FailurePrefix + m)
      case Success(text) =>
        match parse(ExtractJson(text))
        case Raised(m) => Failed(FailurePrefix + m)
        case Success(breakdown) =>
          if !breakdown.JObj? then Failed(FailurePrefix + NoAttribute(breakdown, "get"))
          else
            var title := Get(breakdown, "task_title", JStr(task)).value;
            var steps := Get(breakdown, "steps", JArr([])).value;
            if !Truthy(steps) then NoSteps
            else
              match PopupError(steps)
              case Some(m) => Failed(FailurePrefix + m)
              case None => Shown(title, steps.items)
  }

  /** A popup is shown exactly when the client exists, the model answers,
      the extracted text parses to a dict and its steps are a non-empty list
      of readable steps; the title defaults to the task; a missing or empty
      step list shows the "could not break down" error. */
  lemma ProcessTaskMeaning(task: string, hasClient: bool, reply: Result<string>,
                           parse: string -> Result<Json>)
    ensures ProcessTask(task, hasClient, reply, parse).KeyMissing? <==> !hasClient
    ensures var o := ProcessTask(task, hasClient, reply, parse);
      o.Shown? <==> && hasClient && reply.Success?
                    && parse(ExtractJson(reply.value)).Success?
                    && parse(ExtractJson(reply.value)).value.JObj?
                    && PopupError(Get(parse(ExtractJson(reply.value)).value, "steps", JArr([])).value).None?
    ensures var o := ProcessTask(task, hasClient, reply, parse);
      o.Shown? ==> && |o.steps| > 0 && (forall i :: 0 <= i < |o.steps| ==> IsStep(o.steps[i]))
                   && o.title == Get(parse(ExtractJson(reply.value)).value, "task_title", JStr(task)).value
    ensures var o := ProcessTask(task, hasClient, reply, parse);
      o.NoSteps? <==> && hasClient && reply.Success?
                      && parse(ExtractJson(reply.value)).Success?
                      && parse(ExtractJson(reply.value)).value.JObj?
                      && !Truthy(Get(parse(ExtractJson(reply.value)).value, "steps", JArr([])).value)
  {
  }

  /** A breakdown without "steps" creates no popup; one without
      "task_title" is titled with the task itself. */
  lemma Defaults(task: string, breakdown: Json)
    requires breakdown.JObj?
    ensures !HasKey(breakdown.members, "steps") ==> !Truthy(Get(breakdown, "steps", JArr([])).value)
    ensures !HasKey(breakdown.members, "task_title") ==> Get(breakdown, "task_title", JStr(task)).value == JStr(task)
  {
  }

  /** `TaskInputDialog.submit`: the stripped text is handed on when it is
      not empty; otherwise only a warning is shown. */
  function Submit(text: string): (r: Option<string>)
    ensures r.None? <==> IsBlank(text)
    ensures r.Some? ==> r.value != [] && Strip(r.value) == r.value
  {
    StripIdempotent(text);
    if Strip(text) != [] then Some(Strip(text)) else None
  }

  // ---------------------------------------------------------------- navigation

  /** The index `next_step` moves to: forward unless on the last step. */
  function NextIndex(current: int, n: nat): int {
    if current < n - 1 then current + 1 else current
  }

  /** The index `previous_step` moves to: back unless on the first step. */
  function PreviousIndex(current: int): int {
    if current > 0 then current - 1 else current
  }

  /** A button press in the popup: Next, Previous, or a row of the step list. */
  datatype Press = NextPress | PreviousPress | RowClick(index: int)

  function AfterPress(current: int, n: nat, p: Press): int {
    match p
    case NextPress => NextIndex(current, n)
    case PreviousPress => PreviousIndex(current)
    case RowClick(i) => i
  }

  /** The index after a series of presses, oldest first. */
  function Navigate(current: int, n: nat, presses: seq<Press>): (r: int)
    ensures (forall i :: 0 <= i < |presses| ==> !presses[i].RowClick?) ==>
      current - |presses| <= r <= current + |presses|
    decreases |presses|
  {
    if presses == [] then current
    else
      assert forall i :: 0 <= i < |presses| - 1 ==> presses[1..][i] == presses[i + 1];
      Navigate(AfterPress(current, n, presses[0]), n, presses[1..])
  }

  /** Starting inside the list, Next, Previous and the rows' own indices
      keep the index inside it. */
  lemma {:induction false} NavigationStaysInBounds(current: int, n: nat, presses: seq<Press>)
    requires 0 <= current < n
    requires forall i :: 0 <= i < |presses| && presses[i].RowClick? ==> 0 <= presses[i].index < n
    ensures 0 <= Navigate(current, n, presses) < n
    decreases |presses|
  {
    if presses != [] {
      NavigationStaysInBounds(AfterPress(current, n, presses[0]), n, presses[1..]);
    }
  }

  /** `k` presses of Next go `k` steps forward and stop at the last step. */
  lemma {:induction false} ForwardPresses(current: int, n: nat, k: nat)
    requires 0 <= current < n
    ensures Navigate(current, n, seq(k, _ => NextPress)) == if current + k < n - 1 then current + k else n - 1
    decreases k
  {
    var ps := seq(k, _ => NextPress);
    if k > 0 {
      assert ps[0] == NextPress;
      assert ps[1..] == seq(k - 1, _ => NextPress);
      ForwardPresses(NextIndex(current, n), n, k - 1);
    }
  }

  /** `k` presses of Previous go `k` steps back and stop at the first step. */
  lemma {:induction false} BackwardPresses(current: int, n: nat, k: nat)
    requires 0 <= current < n
    ensures Navigate(current, n, seq(k, _ => PreviousPress)) == if current - k > 0 then current - k else 0
    decreases k
  {
    var ps := seq(k, _ => PreviousPress);
    if k > 0 {
      assert ps[0] == PreviousPress;
      assert ps[1..] == seq(k - 1, _ => PreviousPress);
      BackwardPresses(PreviousIndex(current), n, k - 1);
    }
  }

  // ---------------------------------------------------------------- display

  /** One entry of the step list: the current step is drawn in bold, a done
      step with a check mark; clicking the entry jumps to `index`. */
  datatype Row = Row(index: nat, current: bool, done: bool)

  /** The first `n` rows `update_steps_list` builds for `current`. */
  function RowsFor(current: int, n: nat): (rows: seq<Row>)
    ensures |rows| == n && forall idx :: 0 <= idx < n ==> rows[idx].index == idx
    ensures forall i, j :: 0 <= i < j < n && rows[j].current ==> !rows[i].current
    ensures forall i, j :: 0 <= i <= j < n && rows[j].done ==> rows[i].done
  {
    seq(n, idx requires 0 <= idx < n => Row(idx, idx == current, idx < current))
  }

  /** The number of rows drawn as done. */
  function DoneCount(rows: seq<Row>): nat {
    if rows == [] then 0
    else DoneCount(rows[..|rows| - 1]) + (if rows[|rows| - 1].done then 1 else 0)
  }

  /** The rows drawn as done are the steps before the current one, so their
      number is the current index, held between 0 and the list length. */
  lemma {:induction false} DoneCountIsIndex(current: int, n: nat)
    ensures DoneCount(RowsFor(current, n)) == if current <= 0 then 0 else if current >= n then n else current
  {
    if n > 0 {
      assert RowsFor(current, n)[..n - 1] == RowsFor(current, n - 1);
      DoneCountIsIndex(current, n - 1);
    }
  }

  /** For an index inside the list, its row is the one current row, and a
      row is done exactly when it comes before it. */
  lemma CurrentRow(current: int, n: nat)
    requires 0 <= current < n
    ensures RowsFor(current, n)[current] == Row(current, true, false)
    ensures forall idx :: 0 <= idx < n && idx != current ==>
      !RowsFor(current, n)[idx].current && (RowsFor(current, n)[idx].done <==> idx < current)
  {
  }

  /** What the popup draws. */
  datatype Screen = Screen(
    progress: string,       // "Step {current + 1} of {len(steps)}"
    number: string,         // str(step['id'])
    text: Json,             // step['instruction']
    previousEnabled: bool,
    finishLabel: bool,      // "Finish" rather than "Next"
    rows: seq<Row>)

  const Blank := Screen("", "", JNull, false, false, [])

  predicate Readable(steps: seq<Json>) {
    |steps| > 0 && forall i :: 0 <= i < |steps| ==> IsStep(steps[i])
  }

  function ProgressLabel(current: int, n: nat): string {
    "Step " + IntToString(current + 1) + " of " + IntToString(n)
  }

  /** The screen for index `current`, showing the step Python's `steps[current]`
      selects, `k`. */
  function ScreenFor(steps: seq<Json>, current: int, k: nat): (s: Screen)
    requires k < |steps| && IsStep(steps[k])
    ensures |s.rows| == |steps|
    ensures 0 <= current < |steps| ==> DoneCount(s.rows) == current
  {
    DoneCountIsIndex(current, |steps|);
    Screen(ProgressLabel(current, |steps|), Format(Index(steps[k], "id").value),
           Index(steps[k], "instruction").value, current > 0, current >= |steps| - 1,
           RowsFor(current, |steps|))
  }

  /** The screen `update_display` leaves in place of `before`: for an index
      Python cannot subscript with, only the progress label is redrawn before
      `steps[current]` raises. */
  function Redraw(steps: seq<Json>, current: int, before: Screen): (s: Screen)
    requires Readable(steps)
    ensures s.progress == ProgressLabel(current, |steps|)
    ensures PyIndex(current, |steps|).None? ==> s.text == before.text && s.rows == before.rows
  {
    match PyIndex(current, |steps|)
    case Some(k) => ScreenFor(steps, current, k)
    case None => before.(progress := ProgressLabel(current, |steps|))
  }

  /** Inside the list, Previous is enabled except on the first step, the
      button reads "Finish" exactly on the last, and the step shown is the
      current one. */
  lemma RedrawInside(steps: seq<Json>, current: int, before: Screen)
    requires Readable(steps) && 0 <= current < |steps|
    ensures var s := Redraw(steps, current, before);
      && (s.previousEnabled <==> current != 0)
      && (s.finishLabel <==> current == |steps| - 1)
      && s.text == Index(steps[current], "instruction").value
      && DoneCount(s.rows) == current
  {
    DoneCountIsIndex(current, |steps|);
  }

  /** A jump to a negative index shows a step counted from the end, with no
      row marked current or done. */
  lemma RedrawNegative(steps: seq<Json>, current: int, before: Screen)
    requires Readable(steps) && -|steps| <= current < 0
    ensures var s := Redraw(steps, current, before);
      && s.text == Index(steps[current + |steps|], "instruction").value
      && !s.previousEnabled
      && forall idx :: 0 <= idx < |steps| ==> !s.rows[idx].current && !s.rows[idx].done
  {
    var k := current + |steps|;
    assert PyIndex(current, |steps|) == Some(k);
    assert Redraw(steps, current, before) == ScreenFor(steps, current, k);
    var rows := RowsFor(current, |steps|);
    assert forall idx :: 0 <= idx < |steps| ==> !rows[idx].current && !rows[idx].done;
  }

  // ---------------------------------------------------------------- the popup

  class StepGuidePopup {
    const title: Json
    const steps: seq<Json>
    /** Whether an `on_close` callback was given. */
    const hasOnClose: bool
    var currentStep: int
    var isOpen: bool
    /** How many times `on_close` has been called. */
    var closeCalls: nat
    /** Whether the "You've finished all steps!" message has been shown. */
    var completionShown: bool
    var screen: Screen

    /** The constructor draws the first step; the steps must be readable, or
        drawing raises (`PopupError` says with what). */
    constructor (title: Json, steps: seq<Json>, hasOnClose: bool)
      requires Readable(steps)
      ensures this.title == title && this.steps == steps && this.hasOnClose == hasOnClose
      ensures currentStep == 0 && isOpen && closeCalls == 0 && !completionShown
      ensures screen == ScreenFor(steps, 0, 0)
    {
      this.title := title;
      this.steps := steps;
      this.hasOnClose := hasOnClose;
      currentStep := 0;
      isOpen := true;
      closeCalls := 0;
      completionShown := false;
      screen := Blank;
      new;
      UpdateDisplay();
    }

    /** `update_display()` */
    method UpdateDisplay()
      requires Readable(steps)
      modifies this
      ensures screen == Redraw(steps, currentStep, old(screen))
      ensures currentStep == old(currentStep) && isOpen == old(isOpen)
      ensures closeCalls == old(closeCalls) && completionShown == old(completionShown)
    {
      var progress := ProgressLabel(currentStep, |steps|);
      screen := screen.(progress := progress);
      var k := PyIndex(currentStep, |steps|);
      if k.None? {
        return;
      }
      var step := steps[k.value];
      var number := Format(Index(step, "id").value);
      var text := Index(step, "instruction").value;
      screen := screen.(number := number, text := text, previousEnabled := currentStep > 0,
                        finishLabel := currentStep >= |steps| - 1);
      UpdateStepsList();
    }

    /** `update_steps_list()`: one row per step, in order. */
    method UpdateStepsList()
      modifies this
      ensures screen == old(screen).(rows := RowsFor(currentStep, |steps|))
      ensures currentStep == old(currentStep) && isOpen == old(isOpen)
      ensures closeCalls == old(closeCalls) && completionShown == old(completionShown)
    {
      var built: seq<Row> := [];
      var idx := 0;
      while idx < |steps|
        invariant 0 <= idx <= |steps|
        invariant built == RowsFor(currentStep, idx)
      {
        built := built + [Row(idx, idx == currentStep, idx < currentStep)];
        idx := idx + 1;
      }
      screen := screen.(rows := built);
    }

    /** `next_step()`: forward and redraw, or on the last step the completion
        message and the window closed, the index left as it is. */
    method NextStep()
      requires Readable(steps)
      modifies this
      ensures currentStep == NextIndex(old(currentStep), |steps|)
      ensures old(currentStep) < |steps| - 1 ==>
        && screen == Redraw(steps, currentStep, old(screen))
        && isOpen == old(isOpen) && closeCalls == old(closeCalls) && completionShown == old(completionShown)
      ensures old(currentStep) >= |steps| - 1 ==>
        && screen == old(screen) && completionShown && !isOpen
        && closeCalls == old(closeCalls) + (if hasOnClose then 1 else 0)
    {
      if currentStep < |steps| - 1 {
        currentStep := currentStep + 1;
        UpdateDisplay();
      } else {
        completionShown := true;
        CloseWindow();
      }
    }

    /** `previous_step()`: back and redraw, unless on the first step. */
    method PreviousStep()
      requires Readable(steps)
      modifies this
      ensures currentStep == PreviousIndex(old(currentStep))
      ensures old(currentStep) > 0 ==> screen == Redraw(steps, currentStep, old(screen))
      ensures old(currentStep) <= 0 ==> screen == old(screen)
      ensures isOpen == old(isOpen) && closeCalls == old(closeCalls) && completionShown == old(completionShown)
    {
      if currentStep > 0 {
        currentStep := currentStep - 1;
        UpdateDisplay();
      }
    }

    /** `jump_to_step(idx)`: sets the index, unchecked, and redraws. */
    method JumpToStep(idx: int)
      requires Readable(steps)
      modifies this
      ensures currentStep == idx
      ensures screen == Redraw(steps, idx, old(screen))
      ensures isOpen == old(isOpen) && closeCalls == old(closeCalls) && completionShown == old(completionShown)
    {
      currentStep := idx;
      UpdateDisplay();
    }

    /** `close_window()`: the `on_close` callback, then the window goes. */
    method CloseWindow()
      modifies this
      ensures !isOpen && closeCalls == old(closeCalls) + (if hasOnClose then 1 else 0)
      ensures currentStep == old(currentStep) && screen == old(screen) && completionShown == old(completionShown)
    {
      if hasOnClose {
        closeCalls := closeCalls + 1;
      }
      isOpen := false;
    }
  }
}
