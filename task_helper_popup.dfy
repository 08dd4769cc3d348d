/** The floating-popup variant of the task helper: a blank task is refused
    before the model is asked; otherwise the extracted reply is parsed and
    `show_steps` draws one card per step, in list order, in a window on the
    right of the screen. */
module TaskHelperPopup {
  import opened Wrappers
  import opened PyText
  import opened PyJson
  import opened TaskHelper

  /** The title used when the breakdown has no "task_title". */
  const DefaultTitle := "Your Task"

  /** One step's card: the frame is drawn before `step['id']` is read and
      the number label before `step['instruction']`, so a step that cannot be
      read leaves a card without its text (and maybe without its number). */
  datatype Card = Card(number: Option<string>, text: Option<Json>)

  function CardOf(step: Json): (c: Card)
    ensures c.number.Some? && c.text.Some? <==> IsStep(step)
  {
    if Index(step, "id").None? then Card(None, None)
    else
      var number := Some(Format(Index(step, "id").value));
      if Index(step, "instruction").None? then Card(number, None)
      else Card(number, Some(Index(step, "instruction").value))
  }

  /** The index of the first step at or after `i` that cannot be read, or
      the length of the list when there is none. */
  function FirstUnreadable(xs: seq<Json>, i: nat): (k: nat)
    requires i <= |xs|
    decreases |xs| - i
    ensures i <= k <= |xs|
    ensures forall j :: i <= j < k ==> IsStep(xs[j])
    ensures k < |xs| ==> !IsStep(xs[k])
  {
    if i == |xs| || !IsStep(xs[i]) then i else FirstUnreadable(xs, i + 1)
  }

  /** The cards of `xs`, one per step, in order. */
  function Cards(xs: seq<Json>): (cards: seq<Card>)
    ensures |cards| == |xs|
    ensures forall j :: 0 <= j < |xs| ==> (cards[j].number.Some? && cards[j].text.Some? <==> IsStep(xs[j]))
  {
    seq(|xs|, j requires 0 <= j < |xs| => CardOf(xs[j]))
  }

  /** The window `show_steps` leaves: the title label, when `.get` did not
      raise first; the cards; and the Done button, drawn only when every
      step was. */
  datatype StepsWindow = StepsWindow(title: Option<Json>, cards: seq<Card>, hasDone: bool)

  /** `show_steps(breakdown)`: the window and the exception, if any. */
  function StepsWindowFor(breakdown: Json): (r: (StepsWindow, Option<string>))
    ensures r.0.title.Some? <==> breakdown.JObj?
    ensures r.0.hasDone <==> r.1.None?
    ensures r.0.hasDone ==> forall j :: 0 <= j < |r.0.cards| ==> r.0.cards[j].text.Some?
  {
    if !breakdown.JObj? then (StepsWindow(None, [], false), Some(NoAttribute(breakdown, "get")))
    else
      var title := Get(breakdown, "task_title", JStr(DefaultTitle)).value;
      match Iterate(Get(breakdown, "steps", JArr([])).value)
      case Raised(m) => (StepsWindow(Some(title), [], false), Some(m))
      case Success(xs) =>
        var k := FirstUnreadable(xs, 0);
        if k == |xs| then (StepsWindow(Some(title), Cards(xs), true), None)
        else (StepsWindow(Some(title), Cards(xs[..k + 1]), false), StepError(xs[k]))
  }

  /** `show_steps(breakdown)`, drawing one card per step in order. */
  method ShowSteps(breakdown: Json) returns (w: StepsWindow, error: Option<string>)
    ensures (w, error) == StepsWindowFor(breakdown)
  {
    if !breakdown.JObj? {
      return StepsWindow(None, [], false), Some(NoAttribute(breakdown, "get"));
    }
    var title := Get(breakdown, "task_title", JStr(DefaultTitle)).value;
    var steps := Iterate(Get(breakdown, "steps", JArr([])).value);
    if steps.Raised? {
      return StepsWindow(Some(title), [], false), Some(steps.message);
    }
    var cards, bad := DrawCards(steps.value);
    if bad.None? {
      return StepsWindow(Some(title), cards, true), None;
    }
    return StepsWindow(Some(title), cards, false), bad;
  }

  /** The loop of `show_steps`: each step's card, stopping with the
      exception of the first step that cannot be read. */
  method DrawCards(xs: seq<Json>) returns (cards: seq<Card>, error: Option<string>)
    ensures var k := FirstUnreadable(xs, 0);
      && (k == |xs| ==> cards == Cards(xs) && error.None?)
      && (k < |xs| ==> cards == Cards(xs[..k + 1]) && error == StepError(xs[k]) && error.Some?)
  {
    cards := [];
    var i := 0;
    while i < |xs|
      invariant 0 <= i <= |xs|
      invariant forall j :: 0 <= j < i ==> IsStep(xs[j])
      invariant cards == Cards(xs[..i])
    {
      CardAppended(xs, i, cards);
      cards := cards + [CardOf(xs[i])];
      if !IsStep(xs[i]) {
        FirstUnreadableIs(xs, i);
        return cards, StepError(xs[i]);
      }
      ReadablePrefixExtends(xs, i);
      i := i + 1;
    }
    FirstUnreadableIs(xs, i);
    assert xs[..i] == xs;
    return cards, None;
  }

  /** Drawing one more card extends the cards of the prefix. */
  lemma CardAppended(xs: seq<Json>, i: nat, cards: seq<Card>)
    requires i < |xs| && cards == Cards(xs[..i])
    ensures cards + [CardOf(xs[i])] == Cards(xs[..i + 1])
  {
    assert Cards(xs[..i + 1]) == Cards(xs[..i]) + [CardOf(xs[i])];
  }

  lemma ReadablePrefixExtends(xs: seq<Json>, i: nat)
    requires i < |xs| && IsStep(xs[i])
    requires forall j :: 0 <= j < i ==> IsStep(xs[j])
    ensures forall j :: 0 <= j < i + 1 ==> IsStep(xs[j])
  {
  }

  /** A readable prefix of length `i` followed by an unreadable step, or by
      the end of the list, puts the first unreadable step at `i`. */
  lemma FirstUnreadableIs(xs: seq<Json>, i: nat)
    requires i <= |xs|
    requires forall j :: 0 <= j < i ==> IsStep(xs[j])
    requires i < |xs| ==> !IsStep(xs[i])
    ensures FirstUnreadable(xs, 0) == i
  {
  }

  /** A readable step list is drawn whole, in order, under the title, which
      defaults to "Your Task"; a breakdown without "steps" draws no card. */
  lemma ShowStepsMeaning(breakdown: Json)
    requires breakdown.JObj?
    ensures var (w, error) := StepsWindowFor(breakdown);
      && w.title == Some(if HasKey(breakdown.members, "task_title")
                         then Lookup(breakdown.members, "task_title").value else JStr(DefaultTitle))
      && (!HasKey(breakdown.members, "steps") ==> w.cards == [] && w.hasDone && error.None?)
    ensures var (w, error) := StepsWindowFor(breakdown);
      var steps := Get(breakdown, "steps", JArr([])).value;
      steps.JArr? && (forall i :: 0 <= i < |steps.items| ==> IsStep(steps.items[i])) ==>
        && error.None? && w.hasDone && |w.cards| == |steps.items|
        && forall i :: 0 <= i < |w.cards| ==>
             w.cards[i] == Card(Some(Format(Index(steps.items[i], "id").value)),
                                Some(Index(steps.items[i], "instruction").value))
  {
  }

  /** What `process_task` ends in. */
  datatype PopupOutcome =
    | EmptyWarning                                // "Please describe what you need help with!"
    | Drawn(window: StepsWindow, error: Option<string>)  // show_steps ran; an error dialog if it raised
    | Errored(message: string)                    // the model or the parse raised

  /** `process_task()` for the text in the input box. */
  function ProcessTask(input: string, reply: Result<string>, parse: string -> Result<Json>): (o: PopupOutcome)
    ensures o.EmptyWarning? <==> IsBlank(input)
  {
    if Strip(input) == [] then EmptyWarning
    else
      match reply
      case Raised(m) => Errored(FailurePrefix + m)
      case Success(text) =>
        match parse(ExtractJson(text))
        case Raised(m) => Errored(FailurePrefix + m)
        case Success(breakdown) =>
          var (w, error) := StepsWindowFor(breakdown);
          Drawn(w, if error.Some? then Some(FailurePrefix + error.value) else None)
  }

  /** The model is consulted only for a task that is not blank, and any
      error is reported with the same prefix. */
  lemma ProcessTaskMeaning(input: string, reply: Result<string>, parse: string -> Result<Json>)
    ensures var o := ProcessTask(input, reply, parse);
      o.Errored? ==> !IsBlank(input) && StartsWith(o.message, FailurePrefix)
    ensures var o := ProcessTask(input, reply, parse);
      o.Drawn? ==> && reply.Success? && parse(ExtractJson(reply.value)).Success?
                   && o.window == StepsWindowFor(parse(ExtractJson(reply.value)).value).0
                   && (o.error.Some? ==> StartsWith(o.error.value, FailurePrefix))
  {
    var o := ProcessTask(input, reply, parse);
    if o.Errored? {
      assert o.message[..|FailurePrefix|] == FailurePrefix;
    }
    if o.Drawn? && o.error.Some? {
      assert o.error.value[..|FailurePrefix|] == FailurePrefix;
    }
  }
}
