/** The desktop assistant window. A question typed into the chat is either
    answered by the model or, when it asks for instructions, turned into a
    step-by-step modal whose check boxes count the completed steps. */
module EldaDesktop {
  import opened Wrappers
  import opened PyText
  import opened PyJson

  // ---------------------------------------------------------------- routing

  /** The phrases that mark a request for step-by-step instructions. */
  const StepKeywords: seq<string> := ["how to", "how do i", "steps to", "step by step", "guide me",
                                      "walk me through", "show me how", "tutorial", "instructions"]

  /** `is_step_by_step_request(message)`: one of the phrases occurs in the
      lowercased message. */
  predicate IsStepByStepRequest(message: string) {
    AnyIn(StepKeywords, Lower(message))
  }

  /** The decision ignores letter case. */
  lemma StepRequestIgnoresCase(message: string)
    ensures IsStepByStepRequest(Lower(message)) == IsStepByStepRequest(message)
  {
    LowerIsLower(message);
  }

  /** A request is one exactly when some phrase occurs in the lowercased
      message, wherever it occurs. */
  lemma StepRequestIff(message: string, j: nat, i: nat)
    ensures j < |StepKeywords| && OccursAt(Lower(message), StepKeywords[j], i) ==> IsStepByStepRequest(message)
    ensures (forall k :: 0 <= k < |StepKeywords| ==> !Contains(Lower(message), StepKeywords[k])) ==>
      !IsStepByStepRequest(message)
  {
    if j < |StepKeywords| && OccursAt(Lower(message), StepKeywords[j], i) {
      FoundAt(StepKeywords, j, Lower(message), i);
    }
  }

  /** "How do I reset my password?" asks for steps. */
  lemma HowDoIIsStepRequest()
    ensures IsStepByStepRequest("How do I reset my password?")
  {
    var m := "How do I reset my password?";
    var l := Lower(m);
    assert StepKeywords[1] == "how do i";
    assert l[0] == 'h' && l[7] == 'i';
    assert l[..8] == "how do i";
    FoundAt(StepKeywords, 1, l, 0);
  }

  /** "What time is it?" does not: each phrase has a letter the question
      lacks. */
  lemma WhatTimeIsNoStepRequest()
    ensures !IsStepByStepRequest("What time is it?")
  {
    var m := "What time is it?";
    assert Lower(m) == "what time is it?";
    NoneOf(StepKeywords, Lower(m), [1, 1, 3, 3, 0, 2, 2, 1, 1]);
  }

  /** The service `process_question` consults. */
  datatype Service = GenerateSteps(question: string) | AskGemini(question: string)

  /** The decision `send_message` and `process_question` take together:
      nothing for a blank input; otherwise the stripped question goes to
      `generate_steps` when it asks for instructions and to `ask_gemini`
      when it does not. */
  function Route(input: string): (r: Option<Service>)
    ensures r.None? <==> IsBlank(input)
    ensures r.Some? ==> r.value.question == Strip(input)
    ensures r.Some? ==> (r.value.GenerateSteps? <==> IsStepByStepRequest(Strip(input)))
  {
    var question := Strip(input);
    if question == [] then None
    else if IsStepByStepRequest(question) then Some(GenerateSteps(question))
    else Some(AskGemini(question))
  }

  /** Surrounding blanks change neither whether nor where a question goes. */
  lemma RouteIgnoresPadding(input: string)
    ensures Route(Strip(input)) == Route(input)
  {
    StripIdempotent(input);
  }

  // ---------------------------------------------------------------- chat

  datatype Sender = User | Assistant | System

  /** One message of the chat display. */
  datatype ChatLine = ChatLine(text: string, sender: Sender)

  const Thinking := "● Thinking..."

  /** A step-by-step modal to open, for the task and the steps it lists. */
  datatype ModalRequest = ModalRequest(task: Json, steps: seq<Json>)

  /** What `process_question` leaves: the line it adds, the modal it opened,
      the text it read aloud, and whether the last message of the chat had
      already been deleted when an exception was raised (the `except`
      branch then deletes the last message a second time). */
  datatype Reply = Reply(line: ChatLine, modal: Option<ModalRequest>, spoken: Option<string>,
                         deletedEarly: bool)

  function GuideMessage(task: Json): string {
    "I've created a step-by-step guide for \"" + Format(task) + "\". Check out the modal!"
  }

  /** The line for an exception, shown as a system message; `deletedEarly`
      when the exception came after "Thinking..." was removed. */
  function ErrorReply(message: string, deletedEarly: bool): (r: Reply)
    ensures StartsWith(r.line.text, "Error: ")
  {
    var text := "Error: " + message;
    assert text[..7] == "Error: ";
    Reply(ChatLine(text, System), None, None, deletedEarly)
  }

  /** The reply of `generate_steps` can be read: `data['task']`,
      `data['steps']` and the loop over the steps do not raise. */
  predicate ReadableGuide(data: Json) {
    Subscript(data, "task").Success? && Subscript(data, "steps").Success?
      && Iterate(Subscript(data, "steps").value).Success?
  }

  /** `send_message()` up to the background thread: a blank input is
      ignored; otherwise the stripped question and "Thinking..." are added
      and the question is handed on. */
  function SendMessage(chat: seq<ChatLine>, input: string): (r: (seq<ChatLine>, Option<string>))
    ensures IsBlank(input) ==> r == (chat, None)
    ensures !IsBlank(input) ==>
      && r.0 == chat + [ChatLine(Strip(input), User), ChatLine(Thinking, System)]
      && r.1 == Some(Strip(input))
  {
    var question := Strip(input);
    if question == [] then (chat, None)
    else (chat + [ChatLine(question, User), ChatLine(Thinking, System)], Some(question))
  }

  /** `process_question(question)` with the two services as parameters:
      `generate_steps` for a request for instructions, whose "task" and
      "steps" open the modal, and `ask_gemini` for anything else, whose
      answer is shown and, when speaking is on, read aloud. */
  function ProcessQuestion(question: string, speakEnabled: bool,
                           generateSteps: string -> Result<Json>,
                           askGemini: string -> Result<string>): (r: Reply)
    ensures r.line.sender != User
    ensures r.modal.Some? ==> IsStepByStepRequest(question) && r.line == ChatLine(GuideMessage(r.modal.value.task), Assistant)
    ensures r.spoken.Some? ==> !IsStepByStepRequest(question) && speakEnabled && r.spoken.value == r.line.text
    ensures !IsStepByStepRequest(question) && askGemini(question).Success? ==>
      r == Reply(ChatLine(askGemini(question).value, Assistant), None,
                 if speakEnabled then Some(askGemini(question).value) else None, false)
    ensures r.line.sender == System ==> StartsWith(r.line.text, "Error: ") && r.modal.None? && r.spoken.None?
    ensures r.deletedEarly <==>
      IsStepByStepRequest(question) && generateSteps(question).Success? && r.line.sender == System
    ensures r.modal.Some? <==>
      IsStepByStepRequest(question) && generateSteps(question).Success? && ReadableGuide(generateSteps(question).value)
    ensures r.modal.Some? ==>
      var data := generateSteps(question).value;
      r.modal.value == ModalRequest(Subscript(data, "task").value, Iterate(Subscript(data, "steps").value).value)
    ensures IsStepByStepRequest(question) && generateSteps(question).Raised? ==>
      r == ErrorReply(generateSteps(question).message, false)
  {
    ProcessAnswer(question, speakEnabled, generateSteps, askGemini)
  }

  function ProcessAnswer(question: string, speakEnabled: bool,
                         generateSteps: string -> Result<Json>,
                         askGemini: string -> Result<string>): (r: Reply)
    ensures r.deletedEarly ==> IsStepByStepRequest(question) && generateSteps(question).Success?
    ensures r.modal.Some? <==>
      IsStepByStepRequest(question) && generateSteps(question).Success? && ReadableGuide(generateSteps(question).value)
    ensures r.modal.Some? ==>
      var data := generateSteps(question).value;
      r.modal.value == ModalRequest(Subscript(data, "task").value, Iterate(Subscript(data, "steps").value).value)
  {
    if IsStepByStepRequest(question) then
      // "Thinking..." is deleted as soon as `generate_steps` returns, before
      // the reply is read and the modal is built.
      match generateSteps(question)
      case Raised(m) => ErrorReply(m, false)
      case Success(data) =>
        match Subscript(data, "task")
        case Raised(m) => ErrorReply(m, true)
        case Success(task) =>
          match Subscript(data, "steps")
          case Raised(m) => ErrorReply(m, true)
          case Success(steps) =>
            match Iterate(steps)
            case Raised(m) => ErrorReply(m, true)
            case Success(xs) => Reply(ChatLine(GuideMessage(task), Assistant), Some(ModalRequest(task, xs)), None, false)
    else
      // Only `ask_gemini` can raise here, and it runs before the deletion.
      match askGemini(question)
      case Raised(m) => ErrorReply(m, false)
      case Success(answer) => Reply(ChatLine(answer, Assistant), None, if speakEnabled then Some(answer) else None, false)
  }

  /** Only the service the routing picks is consulted: a request for steps
      does not depend on `ask_gemini`, and any other question does not
      depend on `generate_steps`. */
  lemma OneServiceConsulted(question: string, speakEnabled: bool,
                            g1: string -> Result<Json>, g2: string -> Result<Json>,
                            a1: string -> Result<string>, a2: string -> Result<string>)
    ensures IsStepByStepRequest(question) && g1(question) == g2(question) ==>
      ProcessQuestion(question, speakEnabled, g1, a1) == ProcessQuestion(question, speakEnabled, g2, a2)
    ensures !IsStepByStepRequest(question) && a1(question) == a2(question) ==>
      ProcessQuestion(question, speakEnabled, g1, a1) == ProcessQuestion(question, speakEnabled, g2, a2)
  {
  }

  /** A reply of `generate_steps` whose task, steps and their iteration can
      be read opens the modal with that task and those steps, whatever else
      the dict holds and in whatever order. */
  lemma GuideOpensModal(question: string, speakEnabled: bool, data: Json, task: Json, steps: Json,
                        xs: seq<Json>, generateSteps: string -> Result<Json>,
                        askGemini: string -> Result<string>)
    requires IsStepByStepRequest(question) && generateSteps(question) == Success(data)
    requires Subscript(data, "task") == Success(task) && Subscript(data, "steps") == Success(steps)
    requires Iterate(steps) == Success(xs)
    ensures ProcessQuestion(question, speakEnabled, generateSteps, askGemini)
      == Reply(ChatLine(GuideMessage(task), Assistant), Some(ModalRequest(task, xs)), None, false)
  {
  }

  /** The dict `{"task": t, "steps": [...]}` is such a reply. */
  lemma TaskAndStepsReadable(task: Json, steps: seq<Json>)
    ensures var data := JObj([Member("task", task), Member("steps", JArr(steps))]);
      Subscript(data, "task") == Success(task) && Subscript(data, "steps") == Success(JArr(steps))
      && ReadableGuide(data)
  {
    var ms := [Member("task", task), Member("steps", JArr(steps))];
    var data := JObj(ms);
    assert ms[..1] == [Member("task", task)];
    assert "steps" != "task";
    assert Lookup(ms, "task") == Lookup(ms[..1], "task");
    assert Index(data, "task") == Some(task);
    assert Index(data, "steps") == Some(JArr(steps));
  }

  /** `chat_display.delete("end-4l", "end-1l")`: every message takes three
      text lines, so the call removes the last message shown. */
  function DeleteLast(chat: seq<ChatLine>): (r: seq<ChatLine>)
    ensures chat != [] ==> r == chat[..|chat| - 1]
    ensures chat == [] ==> r == []
  {
    if chat == [] then [] else chat[..|chat| - 1]
  }

  /** The background thread's end: the last message is deleted (twice when
      the exception came after the first deletion), then the reply's line
      is added. */
  function Finish(chat: seq<ChatLine>, reply: Reply): (r: seq<ChatLine>)
    ensures r != [] && r[|r| - 1] == reply.line && r[..|r| - 1] <= chat
    ensures |chat| >= 2 ==> |r| == |chat| - (if reply.deletedEarly then 1 else 0)
  {
    var kept := if reply.deletedEarly then DeleteLast(DeleteLast(chat)) else DeleteLast(chat);
    kept + [reply.line]
  }

  /** A question that is not blank adds the stripped question from the user
      and then the reply; but when reading the reply of `generate_steps` or
      building the modal raises, the second deletion takes the user's
      question away and only the error line is added. A blank question adds
      nothing and consults no service. */
  lemma ConversationStep(chat: seq<ChatLine>, input: string, speakEnabled: bool,
                         generateSteps: string -> Result<Json>, askGemini: string -> Result<string>)
    ensures var (shown, pending) := SendMessage(chat, input);
      IsBlank(input) ==> shown == chat && pending.None?
    ensures var (shown, pending) := SendMessage(chat, input);
      var reply := ProcessQuestion(Strip(input), speakEnabled, generateSteps, askGemini);
      !IsBlank(input) ==>
        && pending == Some(Strip(input))
        && (!reply.deletedEarly ==> Finish(shown, reply) == chat + [ChatLine(Strip(input), User), reply.line])
        && (reply.deletedEarly ==> Finish(shown, reply) == chat + [reply.line])
  {
    if !IsBlank(input) {
      FinishAfterSend(chat, ChatLine(Strip(input), User), ChatLine(Thinking, System),
                      ProcessQuestion(Strip(input), speakEnabled, generateSteps, askGemini));
    }
  }

  /** After the two lines `send_message` adds, the reply replaces the last
      one, or both when the deletion ran twice. */
  lemma FinishAfterSend(chat: seq<ChatLine>, user: ChatLine, thinking: ChatLine, reply: Reply)
    ensures !reply.deletedEarly ==> Finish(chat + [user, thinking], reply) == chat + [user, reply.line]
    ensures reply.deletedEarly ==> Finish(chat + [user, thinking], reply) == chat + [reply.line]
  {
    var shown := chat + [user, thinking];
    assert DeleteLast(shown) == chat + [user];
    assert DeleteLast(chat + [user]) == chat;
  }

  /** A request for steps answered with `{"steps": []}`: the call succeeds,
      the read of "task" raises `KeyError('task')`, and the chat ends with
      the error where the question was. */
  lemma MissingTaskLosesQuestion(chat: seq<ChatLine>, question: string, speakEnabled: bool,
                                 generateSteps: string -> Result<Json>, askGemini: string -> Result<string>)
    requires IsStepByStepRequest(question) && Strip(question) == question && !IsBlank(question)
    requires generateSteps(question) == Success(JObj([Member("steps", JArr([]))]))
    ensures Finish(SendMessage(chat, question).0,
                   ProcessQuestion(question, speakEnabled, generateSteps, askGemini))
      == chat + [ChatLine("Error: 'task'", System)]
  {
    MissingTaskReply(question, speakEnabled, generateSteps, askGemini);
    var reply := ProcessQuestion(question, speakEnabled, generateSteps, askGemini);
    KeyErrorText();
    assert reply.deletedEarly && reply.line == ChatLine("Error: 'task'", System);
    FinishAfterSend(chat, ChatLine(question, User), ChatLine(Thinking, System), reply);
  }

  /** "how to cook" is such a request. */
  lemma HowToCookIsStepRequest()
    ensures IsStepByStepRequest("how to cook")
  {
    var l := Lower("how to cook");
    assert StepKeywords[0] == "how to";
    assert l[0] == 'h' && l[5] == 'o';
    assert l[..6] == "how to";
    FoundAt(StepKeywords, 0, l, 0);
  }

  lemma HowToCookIsNormal()
    ensures Strip("how to cook") == "how to cook" && !IsBlank("how to cook")
  {
    var q := "how to cook";
    assert q[0] == 'h' && q[|q| - 1] == 'k';
    AlreadyNormal(q);
    assert !IsSpace(q[0]);
  }

  /** Asking "how to cook" when the model's reply is `{"steps": []}` leaves
      only the error in the chat: the question the user typed is gone. */
  lemma HowToCookLosesQuestion(chat: seq<ChatLine>, speakEnabled: bool,
                               generateSteps: string -> Result<Json>, askGemini: string -> Result<string>)
    requires generateSteps("how to cook") == Success(JObj([Member("steps", JArr([]))]))
    ensures Finish(SendMessage(chat, "how to cook").0,
                   ProcessQuestion("how to cook", speakEnabled, generateSteps, askGemini))
      == chat + [ChatLine("Error: 'task'", System)]
  {
    HowToCookIsStepRequest();
    HowToCookIsNormal();
    MissingTaskLosesQuestion(chat, "how to cook", speakEnabled, generateSteps, askGemini);
  }

  lemma KeyErrorText()
    ensures "Error: " + "'task'" == "Error: 'task'"
  {
    var a := "Error: " + "'task'";
    assert |a| == 13;
    assert forall i :: 0 <= i < 13 ==> a[i] == "Error: 'task'"[i];
  }

  /** A reply of `generate_steps` without "task" raises `KeyError('task')`
      after "Thinking..." was deleted. */
  lemma MissingTaskReply(question: string, speakEnabled: bool,
                         generateSteps: string -> Result<Json>, askGemini: string -> Result<string>)
    requires IsStepByStepRequest(question)
    requires generateSteps(question) == Success(JObj([Member("steps", JArr([]))]))
    ensures ProcessQuestion(question, speakEnabled, generateSteps, askGemini) == ErrorReply("'task'", true)
  {
    assert Lookup([Member("steps", JArr([]))], "task").None?;
    assert Subscript(JObj([Member("steps", JArr([]))]), "task") == Raised("'task'");
  }

  // ---------------------------------------------------------------- the modal

  /** How many boxes are checked. */
  function CountChecked(vars: seq<bool>): (n: nat)
    ensures n <= |vars|
  {
    if vars == [] then 0 else CountChecked(vars[..|vars| - 1]) + (if vars[|vars| - 1] then 1 else 0)
  }

  /** Writing one box changes the count by what that box gains or loses. */
  lemma {:induction false} CountCheckedUpdate(vars: seq<bool>, i: nat, b: bool)
    requires i < |vars|
    decreases |vars|
    ensures CountChecked(vars[i := b]) ==
      CountChecked(vars) - (if vars[i] then 1 else 0) + (if b then 1 else 0)
  {
    var n := |vars|;
    var w := vars[i := b];
    if i == n - 1 {
      assert w[..n - 1] == vars[..n - 1];
    } else {
      assert w[..n - 1] == vars[..n - 1][i := b];
      CountCheckedUpdate(vars[..n - 1], i, b);
    }
  }

  /** Every box is checked exactly when the count reaches the number of
      boxes. */
  lemma {:induction false} AllChecked(vars: seq<bool>)
    decreases |vars|
    ensures CountChecked(vars) == |vars| <==> forall i :: 0 <= i < |vars| ==> vars[i]
  {
    if vars != [] {
      var n := |vars|;
      var init := vars[..n - 1];
      AllChecked(init);
      assert forall i :: 0 <= i < n - 1 ==> init[i] == vars[i];
    }
  }

  /** The progress text `f"{completed}/{total}"`. */
  function Fraction(done: int, total: int): string {
    IntToString(done) + "/" + IntToString(total)
  }

  const Congratulations := "\U{1F389} You've completed all steps!"

  function HelpMessage(index: int): string {
    "Step " + IntToString(index + 1) + " marked as completed. You can ask for help with this step anytime!"
  }

  /** The modal: one Boolean variable per step, each watched by a write
      trace that runs `toggle_step`, the completed-steps counter and the
      progress text. */
  class StepModal {
    const task: Json
    const steps: seq<Json>
    /** The window title, `f"How to {task}"`. */
    const title: string
    var stepVars: seq<bool>
    var completedSteps: int
    var progressText: string
    var isOpen: bool
    /** The message boxes shown, oldest first. */
    var dialogs: seq<string>

    /** The counter counts the checked boxes, the progress text shows it,
        and an open modal with steps still has one to do. */
    predicate Valid()
      reads this
    {
      && |stepVars| == |steps|
      && completedSteps == CountChecked(stepVars)
      && progressText == Fraction(completedSteps, |steps|)
      && (isOpen && |steps| > 0 ==> completedSteps < |steps|)
    }

    /** `StepModal(parent, task, steps)`: one unchecked box per step, and the
        progress text "0/0" replaced by "0/total" when there are steps. */
    constructor (task: Json, steps: seq<Json>)
      ensures this.task == task && this.steps == steps && title == "How to " + Format(task)
      ensures stepVars == seq(|steps|, _ => false) && completedSteps == 0
      ensures isOpen && dialogs == []
      ensures Valid()
    {
      this.task := task;
      this.steps := steps;
      title := "How to " + Format(task);
      var vars: seq<bool> := [];
      var i := 0;
      while i < |steps|
        invariant 0 <= i <= |steps|
        invariant vars == seq(i, _ => false)
      {
        vars := vars + [false];
        i := i + 1;
      }
      stepVars := vars;
      completedSteps := 0;
      progressText := "0/0";
      isOpen := true;
      dialogs := [];
      new;
      NoneChecked(|steps|);
      UpdateProgress();
      assert NatToString(0) == "0";
    }

    /** `update_progress()`: the text, when there are steps. */
    method UpdateProgress()
      modifies this
      ensures |steps| > 0 ==> progressText == Fraction(completedSteps, |steps|)
      ensures |steps| == 0 ==> progressText == old(progressText)
      ensures stepVars == old(stepVars) && completedSteps == old(completedSteps)
      ensures isOpen == old(isOpen) && dialogs == old(dialogs)
    {
      var total := |steps|;
      if total > 0 {
        progressText := Fraction(completedSteps, total);
      }
    }

    /** `close_modal()` */
    method CloseModal()
      modifies this
      ensures !isOpen
      ensures stepVars == old(stepVars) && completedSteps == old(completedSteps)
      ensures progressText == old(progressText) && dialogs == old(dialogs)
    {
      isOpen := false;
    }

    /** `all_steps_completed()`: the congratulations, then the window closes. */
    method AllStepsCompleted()
      modifies this
      ensures !isOpen && dialogs == old(dialogs) + [Congratulations]
      ensures stepVars == old(stepVars) && completedSteps == old(completedSteps)
      ensures progressText == old(progressText)
    {
      dialogs := dialogs + [Congratulations];
      CloseModal();
    }

    /** `request_help()`: the modal closes (the focus moves back to the
        chat input). */
    method RequestHelp()
      modifies this
      ensures !isOpen
      ensures stepVars == old(stepVars) && completedSteps == old(completedSteps)
      ensures progressText == old(progressText) && dialogs == old(dialogs)
    {
      CloseModal();
    }

    /** `toggle_step(index)`, run by the write trace of box `index`: one more
        when the box reads checked, one fewer when it does not, then the
        progress, then completion once the counter equals the number of
        steps. */
    method ToggleStep(index: int)
      requires 0 <= index < |stepVars|
      modifies this
      ensures stepVars == old(stepVars)
      ensures completedSteps == old(completedSteps) + (if stepVars[index] then 1 else -1)
      ensures |steps| > 0 ==> progressText == Fraction(completedSteps, |steps|)
      ensures |steps| == 0 ==> progressText == old(progressText)
      ensures completedSteps == |steps| ==> !isOpen && dialogs == old(dialogs) + [Congratulations]
      ensures completedSteps != |steps| ==> isOpen == old(isOpen) && dialogs == old(dialogs)
    {
      if stepVars[index] {
        completedSteps := completedSteps + 1;
      } else {
        completedSteps := completedSteps - 1;
      }
      UpdateProgress();
      if completedSteps == |steps| {
        AllStepsCompleted();
      }
    }

    /** A click on box `index`: Tk flips the variable, and the write runs
        `toggle_step`. The counter keeps counting the checked boxes, and the
        modal closes exactly when every box is checked. */
    method Click(index: int)
      requires Valid() && isOpen && 0 <= index < |stepVars|
      modifies this
      ensures Valid()
      ensures stepVars == old(stepVars)[index := !old(stepVars)[index]]
      ensures !isOpen <==> forall i :: 0 <= i < |stepVars| ==> stepVars[i]
      ensures !isOpen ==> dialogs == old(dialogs) + [Congratulations]
      ensures isOpen ==> dialogs == old(dialogs)
    {
      CountCheckedUpdate(stepVars, index, !stepVars[index]);
      stepVars := stepVars[index := !stepVars[index]];
      ToggleStep(index);
      AllChecked(stepVars);
    }

    /** `cant_complete_step(index)` as written: the variable is set to True,
        and since the trace runs on every write, `toggle_step` counts the step
        again when it was already checked. */
    method CantCompleteStepAsWritten(index: int)
      requires isOpen && 0 <= index < |stepVars|
      modifies this
      ensures stepVars == old(stepVars)[index := true]
      ensures completedSteps == old(completedSteps) + 1
      ensures completedSteps == |steps| ==> !isOpen && dialogs == old(dialogs) + [Congratulations, HelpMessage(index)]
      ensures completedSteps != |steps| ==> isOpen && dialogs == old(dialogs) + [HelpMessage(index)]
    {
      stepVars := stepVars[index := true];
      ToggleStep(index);
      dialogs := dialogs + [HelpMessage(index)];
    }

    /** `cant_complete_step(index)` as intended: the step is marked as
        completed, counted once, so the counter keeps counting the checked
        boxes and the modal closes exactly when every box is checked. */
    method CantCompleteStep(index: int)
      requires Valid() && isOpen && 0 <= index < |stepVars|
      modifies this
      ensures Valid()
      ensures stepVars == old(stepVars)[index := true]
      ensures !isOpen <==> forall i :: 0 <= i < |stepVars| ==> stepVars[i]
      ensures !isOpen ==> dialogs == old(dialogs) + [Congratulations, HelpMessage(index)]
      ensures isOpen ==> dialogs == old(dialogs) + [HelpMessage(index)]
    {
      if !stepVars[index] {
        // Setting an unchecked box is the write a click makes.
        Click(index);
      } else {
        assert stepVars[index := true] == stepVars;
        AllChecked(stepVars);
      }
      dialogs := dialogs + [HelpMessage(index)];
    }
  }

  /** No box is checked at first. */
  lemma {:induction false} NoneChecked(n: nat)
    decreases n
    ensures CountChecked(seq(n, _ => false)) == 0
  {
    if n > 0 {
      assert seq(n, _ => false)[..n - 1] == seq(n - 1, _ => false);
      NoneChecked(n - 1);
    }
  }

  /** Two steps: the first is checked, then "Can't Complete This Step" is
      pressed on it. The counter reaches 2 and the modal congratulates and
      closes although the second step was never checked. */
  method DoubleCountExample() returns (completed: int, checked: seq<bool>, closed: bool)
    ensures completed == 2 && checked == [true, false] && closed
  {
    var m := new StepModal(JStr("reset the router"), [JStr("unplug it"), JStr("plug it in")]);
    m.Click(0);
    assert m.stepVars == [true, false];
    assert [true, false][..1] == [true];
    assert CountChecked([true]) == 1 by {
      assert [true][..0] == [];
    }
    assert m.completedSteps == 1;
    m.CantCompleteStepAsWritten(0);
    return m.completedSteps, m.stepVars, !m.isOpen;
  }
}
