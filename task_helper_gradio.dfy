/** The web variant of the task helper: `break_down_task` turns a task
    description into a Markdown text, a "# title" header followed by one
    "**Step id:** instruction" paragraph per step, or into an error text. */
module TaskHelperGradio {
  import opened Wrappers
  import opened PyText
  import opened PyJson
  import opened TaskHelper

  const EmptyInput := "Please enter a task description."
  const ErrorSuffix := "\n\nPlease try again or check your API key."

  function Header(title: Json): string {
    "# " + Format(title) + "\n\n"
  }

  /** The paragraph for one step (used only for readable steps). */
  function StepLine(step: Json): string {
    "**Step " + Format(Index(step, "id").GetOr(JNull)) + ":** "
      + Format(Index(step, "instruction").GetOr(JNull)) + "\n\n"
  }

  /** The paragraphs of the steps, in order. */
  function Paragraphs(xs: seq<Json>): (ps: seq<string>)
    ensures |ps| == |xs|
  {
    seq(|xs|, i requires 0 <= i < |xs| => StepLine(xs[i]))
  }

  /** The texts one after the other, as `+=` accumulates them. */
  function Join(ps: seq<string>): string {
    if ps == [] then "" else Join(ps[..|ps| - 1]) + ps[|ps| - 1]
  }

  lemma {:induction false} JoinAppend(ps: seq<string>, qs: seq<string>)
    ensures Join(ps + qs) == Join(ps) + Join(qs)
    decreases |qs|
  {
    if qs == [] {
      assert ps + qs == ps;
    } else {
      var init := qs[..|qs| - 1];
      assert (ps + qs)[..|ps + qs| - 1] == ps + init;
      JoinAppend(ps, init);
    }
  }

  /** The Markdown body for the steps. */
  function Lines(xs: seq<Json>): string {
    Join(Paragraphs(xs))
  }

  /** The body of two lists one after the other is that of the joined list:
      each step contributes its own paragraph, in list order. */
  lemma LinesAppend(xs: seq<Json>, ys: seq<Json>)
    ensures Lines(xs + ys) == Lines(xs) + Lines(ys)
  {
    ParagraphsAppend(xs, ys);
    JoinAppend(Paragraphs(xs), Paragraphs(ys));
  }

  lemma ParagraphsAppend(xs: seq<Json>, ys: seq<Json>)
    ensures Paragraphs(xs + ys) == Paragraphs(xs) + Paragraphs(ys)
  {
    var l, r := Paragraphs(xs + ys), Paragraphs(xs) + Paragraphs(ys);
    forall k | 0 <= k < |l|
      ensures l[k] == r[k]
    {
      if k >= |xs| {
        assert (xs + ys)[k] == ys[k - |xs|];
      }
    }
  }

  /** A single step's body is its paragraph. */
  lemma LinesOfOne(x: Json)
    ensures Lines([x]) == StepLine(x)
  {
    var ps := Paragraphs([x]);
    assert ps == [StepLine(x)];
    assert ps[..0] == [];
    assert Join(ps) == Join(ps[..0]) + ps[0];
  }

  /** The body of a non-empty list is its first paragraph, then the rest. */
  lemma LinesOfCons(xs: seq<Json>)
    requires |xs| > 0
    ensures Lines(xs) == StepLine(xs[0]) + Lines(xs[1..])
  {
    LinesOfOne(xs[0]);
    assert xs == [xs[0]] + xs[1..];
    LinesAppend([xs[0]], xs[1..]);
  }

  /** Adding a step to a prefix adds its paragraph at the end. */
  lemma LinesSnoc(xs: seq<Json>, i: nat)
    requires i < |xs|
    ensures Lines(xs[..i + 1]) == Lines(xs[..i]) + StepLine(xs[i])
  {
    var ps := Paragraphs(xs[..i + 1]);
    assert ps[..i] == Paragraphs(xs[..i]);
    assert Join(ps) == Join(ps[..i]) + ps[i];
  }

  /** The error text: what the exception says, between "Error: " and the
      advice. */
  function ErrorText(message: string): string {
    "Error: " + message + ErrorSuffix
  }

  /** The Markdown answer for a parsed breakdown's title and steps: the
      header and one paragraph per step, or the error of the first step that
      cannot be read. */
  function Markdown(title: Json, steps: Json): (r: string)
    ensures Iterate(steps).Success? && FirstStepError(Iterate(steps).value).None? ==>
      StartsWith(r, Header(title))
    ensures Iterate(steps).Raised? || FirstStepError(Iterate(steps).value).Some? ==>
      StartsWith(r, "Error: ")
  {
    match Iterate(steps)
    case Raised(m) => ErrorText(m)
    case Success(xs) =>
      match FirstStepError(xs)
      case Some(m) => ErrorText(m)
      case None => Header(title) + Lines(xs)
  }

  /** The answer for what `json.loads` made of the extracted reply. */
  function Answer(taskDescription: string, parsed: Result<Json>): (r: string)
    ensures parsed.Raised? || !parsed.value.JObj? ==> StartsWith(r, "Error: ")
    ensures (parsed.Success? && parsed.value.JObj? && !HasKey(parsed.value.members, "task_title")
             && !StartsWith(r, "Error: ")) ==> StartsWith(r, Header(JStr(taskDescription)))
  {
    match parsed
    case Raised(m) => ErrorText(m)
    case Success(breakdown) =>
      if !breakdown.JObj? then ErrorText(NoAttribute(breakdown, "get"))
      else Markdown(Get(breakdown, "task_title", JStr(taskDescription)).value,
                    Get(breakdown, "steps", JArr([])).value)
  }

  /** What `break_down_task(task_description)` returns. */
  function BreakDown(taskDescription: string, reply: Result<string>, parse: string -> Result<Json>): (r: string)
    ensures IsBlank(taskDescription) ==> r == EmptyInput
    ensures !IsBlank(taskDescription) && reply.Raised? ==> StartsWith(r, "Error: ")
  {
    if Strip(taskDescription) == [] then EmptyInput
    else
      match reply
      case Raised(m) => ErrorText(m)
      case Success(text) => Answer(taskDescription, parse(ExtractJson(text)))
  }

  /** The first step that cannot be read, after readable ones, is the one
      whose exception `FirstStepError` reports. */
  lemma {:induction false} FirstStepErrorAt(xs: seq<Json>, i: nat)
    requires i < |xs| && !IsStep(xs[i])
    requires forall j :: 0 <= j < i ==> IsStep(xs[j])
    ensures FirstStepError(xs) == StepError(xs[i])
    decreases i
  {
    if i > 0 {
      assert xs[1..][i - 1] == xs[i];
      FirstStepErrorAt(xs[1..], i - 1);
    }
  }

  /** The header, then `output +=` one paragraph per step. */
  method FormatSteps(title: Json, steps: Json) returns (output: string)
    ensures output == Markdown(title, steps)
  {
    var items := Iterate(steps);
    if items.Raised? {
      return ErrorText(items.message);
    }
    var r := AppendSteps(Header(title), items.value);
    MarkdownOfSteps(title, steps, items.value);
    output := if r.Success? then r.value else ErrorText(r.message);
  }

  /** The loop of `break_down_task`: `output +=` each step's paragraph,
      stopping with the exception of the first step that cannot be read. */
  method AppendSteps(header: string, xs: seq<Json>) returns (r: Result<string>)
    ensures FirstStepError(xs).None? ==> r == Success(header + Lines(xs))
    ensures FirstStepError(xs).Some? ==> r == Raised(FirstStepError(xs).value)
  {
    var output := header;
    var i := 0;
    while i < |xs|
      invariant 0 <= i <= |xs|
      invariant forall j :: 0 <= j < i ==> IsStep(xs[j])
      invariant output == header + Lines(xs[..i])
    {
      if !IsStep(xs[i]) {
        FirstStepErrorAt(xs, i);
        return Raised(StepError(xs[i]).value);
      }
      StepAppended(header, xs, i, output);
      output := output + StepLine(xs[i]);
      i := i + 1;
    }
    assert xs[..i] == xs;
    return Success(output);
  }

  /** One pass of that loop over a readable step keeps its invariant. */
  lemma StepAppended(header: string, xs: seq<Json>, i: nat, output: string)
    requires i < |xs| && IsStep(xs[i])
    requires forall j :: 0 <= j < i ==> IsStep(xs[j])
    requires output == header + Lines(xs[..i])
    ensures forall j :: 0 <= j < i + 1 ==> IsStep(xs[j])
    ensures output + StepLine(xs[i]) == header + Lines(xs[..i + 1])
  {
    LinesSnoc(xs, i);
    ConcatAssoc(header, Lines(xs[..i]), StepLine(xs[i]));
  }

  /** `Markdown` once the steps are known to iterate as `xs`. */
  lemma MarkdownOfSteps(title: Json, steps: Json, xs: seq<Json>)
    requires Iterate(steps) == Success(xs)
    ensures FirstStepError(xs).None? ==> Markdown(title, steps) == Header(title) + Lines(xs)
    ensures FirstStepError(xs).Some? ==> Markdown(title, steps) == ErrorText(FirstStepError(xs).value)
  {
  }

  /** `break_down_task(task_description)` */
  method BreakDownTask(taskDescription: string, reply: Result<string>, parse: string -> Result<Json>)
    returns (output: string)
    ensures output == BreakDown(taskDescription, reply, parse)
  {
    if Strip(taskDescription) == [] {
      return EmptyInput;
    }
    if reply.Raised? {
      return ErrorText(reply.message);
    }
    var parsed := parse(ExtractJson(reply.value));
    if parsed.Raised? {
      return ErrorText(parsed.message);
    }
    var breakdown := parsed.value;
    if !breakdown.JObj? {
      return ErrorText(NoAttribute(breakdown, "get"));
    }
    var title := Get(breakdown, "task_title", JStr(taskDescription)).value;
    output := FormatSteps(title, Get(breakdown, "steps", JArr([])).value);
  }

  /** Every answer to a parsed value is the Markdown text, starting with its
      header, or an error text starting with "Error: ". */
  lemma AnswerShape(taskDescription: string, parsed: Result<Json>)
    ensures var r := Answer(taskDescription, parsed); StartsWith(r, "Error: ") || StartsWith(r, "# ")
  {
    var r := Answer(taskDescription, parsed);
    if parsed.Success? && parsed.value.JObj? && !StartsWith(r, "Error: ") {
      var title := Get(parsed.value, "task_title", JStr(taskDescription)).value;
      assert StartsWith(r, Header(title));
      HeaderPrefix(title, r);
    }
  }

  /** A text that starts with a header starts with "# ". */
  lemma HeaderPrefix(title: Json, r: string)
    requires StartsWith(r, Header(title))
    ensures StartsWith(r, "# ")
  {
    var h := Header(title);
    assert h[..2] == "# ";
    assert r[..2] == h[..2];
  }

  /** A blank description is answered without asking the model; any other
      is answered with the Markdown text or an error text. */
  lemma BreakDownShape(taskDescription: string, reply: Result<string>, parse: string -> Result<Json>)
    ensures IsBlank(taskDescription) ==> BreakDown(taskDescription, reply, parse) == EmptyInput
    ensures var r := BreakDown(taskDescription, reply, parse);
      !IsBlank(taskDescription) ==> StartsWith(r, "Error: ") || StartsWith(r, "# ")
  {
    if !IsBlank(taskDescription) {
      if reply.Raised? {
        assert ErrorText(reply.message)[..7] == "Error: ";
      } else {
        AnswerShape(taskDescription, parse(ExtractJson(reply.value)));
      }
    }
  }

  /** A breakdown without "task_title" is headed by the description as
      typed; one without "steps" is the header alone. */
  lemma Defaults(taskDescription: string, breakdown: Json)
    requires breakdown.JObj?
    ensures !HasKey(breakdown.members, "task_title") && !HasKey(breakdown.members, "steps") ==>
      Answer(taskDescription, Success(breakdown)) == Header(JStr(taskDescription))
  {
    if !HasKey(breakdown.members, "task_title") && !HasKey(breakdown.members, "steps") {
      assert Lines([]) == "";
    }
  }

  /** A readable step list gives the header followed by each step's
      paragraph in list order. */
  lemma StepsInOrder(title: Json, xs: seq<Json>)
    requires forall i :: 0 <= i < |xs| ==> IsStep(xs[i])
    ensures |xs| > 0 ==> Markdown(title, JArr(xs)) == Header(title) + StepLine(xs[0]) + Lines(xs[1..])
    ensures xs == [] ==> Markdown(title, JArr(xs)) == Header(title)
  {
    assert Iterate(JArr(xs)) == Success(xs);
    assert FirstStepError(xs).None?;
    assert Markdown(title, JArr(xs)) == Header(title) + Lines(xs);
    if |xs| > 0 {
      LinesOfCons(xs);
      ConcatAssoc(Header(title), StepLine(xs[0]), Lines(xs[1..]));
    } else {
      assert Lines(xs) == "";
    }
  }
}
