/** The web server's test variant, which asks no model: `/ask` echoes the
    question inside a fixed answer, and `/generate-steps` returns six fixed
    steps under the task with its "how to"/"how do i" phrases removed. */
module AppTest {
  import opened Wrappers
  import opened PyText
  import opened PyJson

  /** What a handler gives Flask: a JSON body with its status, or the
      exception that makes Flask answer 500. */
  datatype Outcome = Reply(status: nat, body: Json) | Crashed(message: string)

  const Ok := 200
  const BadRequest := 400

  function ErrorBody(text: string): Json {
    JObj([Member("error", JStr(text))])
  }

  /** `data.get(key, '').strip()`: it raises for a body that is not an
      object and for a value that is not a string. */
  function Field(data: Json, key: string): (r: Result<string>)
    ensures data.JObj? && !HasKey(data.members, key) ==> r == Success("")
    ensures data.JObj? && Lookup(data.members, key).Some? && Lookup(data.members, key).value.JStr? ==>
      r == Success(Strip(Lookup(data.members, key).value.s))
    ensures r.Raised? <==> !data.JObj? || (HasKey(data.members, key) && !Lookup(data.members, key).value.JStr?)
  {
    if !data.JObj? then Raised(NoAttribute(data, "get"))
    else
      var v := Get(data, key, JStr("")).value;
      if v.JStr? then Success(Strip(v.s)) else Raised(NoAttribute(v, "strip"))
  }

  // ---------------------------------------------------------------- /ask

  const AnswerPrefix := "Test response: I received your question '"
  const AnswerSuffix := "'. This is a mock response for testing the UI."

  function AnswerText(question: string): string {
    AnswerPrefix + question + AnswerSuffix
  }

  /** The question is embedded verbatim: it can be read back from the
      answer. */
  lemma AnswerRoundTrip(question: string)
    ensures var a := AnswerText(question);
      && |a| == |AnswerPrefix| + |question| + |AnswerSuffix|
      && a[|AnswerPrefix|..|a| - |AnswerSuffix|] == question
      && OccursAt(a, question, |AnswerPrefix|)
  {
    var a := AnswerText(question);
    assert a[|AnswerPrefix|..|a| - |AnswerSuffix|] == question;
  }

  /** `ask()` for the request body `data`. */
  function Ask(data: Json): (o: Outcome)
    ensures o.Reply? ==> o.status == Ok || o.status == BadRequest
  {
    match Field(data, "question")
    case Raised(m) => Crashed(m)
    case Success(question) =>
      if question == [] then Reply(BadRequest, ErrorBody("No question provided"))
      else Reply(Ok, JObj([Member("question", JStr(question)), Member("answer", JStr(AnswerText(question)))]))
  }

  /** A missing or blank question is refused with 400; any other is
      answered with 200, the stripped question and the answer that embeds
      it. */
  lemma AskMeaning(data: Json, text: string)
    requires data.JObj?
    ensures !HasKey(data.members, "question") ==> Ask(data) == Reply(BadRequest, ErrorBody("No question provided"))
    ensures Lookup(data.members, "question") == Some(JStr(text)) && IsBlank(text) ==>
      Ask(data) == Reply(BadRequest, ErrorBody("No question provided"))
    ensures Lookup(data.members, "question") == Some(JStr(text)) && !IsBlank(text) ==>
      && Ask(data).Reply? && Ask(data).status == Ok
      && Index(Ask(data).body, "question") == Some(JStr(Strip(text)))
      && Index(Ask(data).body, "answer") == Some(JStr(AnswerText(Strip(text))))
  {
    if Lookup(data.members, "question") == Some(JStr(text)) && !IsBlank(text) {
      var q := Strip(text);
      var ms := [Member("question", JStr(q)), Member("answer", JStr(AnswerText(q)))];
      assert ms[..1] == [ms[0]];
      assert "answer" != "question";
      assert Lookup(ms, "question") == Lookup(ms[..1], "question");
    }
  }

  // ---------------------------------------------------------------- /generate-steps

  const MockSteps: seq<string> := [
    "Open your web browser",
    "Navigate to the appropriate website",
    "Locate the search function",
    "Enter your search query",
    "Review the results",
    "Take action based on findings"
  ]

  function MockStepsJson(): (j: Json)
    ensures j.JArr? && |j.items| == |MockSteps| == 6
    ensures forall i :: 0 <= i < 6 ==> j.items[i] == JStr(MockSteps[i])
  {
    JArr(seq(|MockSteps|, i requires 0 <= i < |MockSteps| => JStr(MockSteps[i])))
  }

  /** `task.replace("how to", "").replace("how do i", "").strip()` */
  function Cleanup(task: string): (r: string)
    ensures |r| <= |task|
    ensures r == [] || (!IsSpace(r[0]) && !IsSpace(r[|r| - 1]))
  {
    Strip(Replace(Replace(task, "how to", ""), "how do i", ""))
  }

  /** `generate_steps_endpoint()` for the request body `data`. */
  function GenerateStepsEndpoint(data: Json): (o: Outcome)
    ensures o.Reply? ==> o.status == Ok || o.status == BadRequest
    ensures o.Reply? && o.status == Ok ==> Index(o.body, "steps") == Some(MockStepsJson())
  {
    match Field(data, "task")
    case Raised(m) => Crashed(m)
    case Success(task) =>
      if task == [] then Reply(BadRequest, ErrorBody("No task provided"))
      else
        var ms := [Member("task", JStr(Cleanup(task))), Member("steps", MockStepsJson())];
        assert Lookup(ms, "steps") == Some(MockStepsJson());
        Reply(Ok, JObj(ms))
  }

  /** A missing or blank task is refused with 400; any other gets 200, the
      cleaned-up stripped task and the six fixed steps in order. */
  lemma GenerateStepsMeaning(data: Json, text: string)
    requires data.JObj?
    ensures !HasKey(data.members, "task") ==> GenerateStepsEndpoint(data) == Reply(BadRequest, ErrorBody("No task provided"))
    ensures Lookup(data.members, "task") == Some(JStr(text)) && IsBlank(text) ==>
      GenerateStepsEndpoint(data) == Reply(BadRequest, ErrorBody("No task provided"))
    ensures Lookup(data.members, "task") == Some(JStr(text)) && !IsBlank(text) ==>
      GenerateStepsEndpoint(data) ==
        Reply(Ok, JObj([Member("task", JStr(Cleanup(Strip(text)))), Member("steps", MockStepsJson())]))
  {
  }

  /** A task without either phrase is only stripped. */
  lemma CleanupWithoutPhrases(task: string)
    requires !Contains(task, "how to") && !Contains(task, "how do i")
    ensures Cleanup(task) == Strip(task)
  {
    ReplaceAbsent(task, "how to", "");
    ReplaceAbsent(task, "how do i", "");
  }

  /** A phrase at the front is dropped. */
  lemma DroppedAtFront(s: string, pat: string)
    requires pat != [] && OccursAt(s, pat, 0) && !Contains(s[|pat|..], pat)
    ensures Replace(s, pat, "") == s[|pat|..]
  {
    ReplaceAbsent(s[|pat|..], pat, "");
  }

  /** A first character that does not start the phrase is kept. */
  lemma KeptAtFront(s: string, pat: string, k: nat)
    requires pat != [] && k < |pat| && k < |s| && s[k] != pat[k]
    ensures Replace(s, pat, "") == [s[0]] + Replace(s[1..], pat, "")
  {
    if |pat| <= |s| {
      assert s[..|pat|][k] != pat[k];
    }
  }

  /** One leading blank is stripped from a text that is otherwise normal. */
  lemma StripOneBlank(s: string)
    requires |s| >= 2 && IsSpace(s[0]) && !IsSpace(s[1]) && !IsSpace(s[|s| - 1])
    ensures Strip(s) == s[1..]
  {
    assert LStrip(s) == LStrip(s[1..]) == s[1..];
  }

  /** "how to bake bread" becomes "bake bread". */
  lemma CleanupHowTo()
    ensures Cleanup("how to bake bread") == "bake bread"
  {
    var s := "how to bake bread";
    var rest := s[6..];
    assert rest == " bake bread";
    MissingChar(rest, "how to", 2);
    MissingChar(rest, "how do i", 2);
    StripOneBlank(rest);
    CleanupLeadingPhrase(s);
  }

  /** A task that opens with "how to", and has neither phrase after it,
      loses the opening phrase and is stripped. */
  lemma CleanupLeadingPhrase(s: string)
    requires OccursAt(s, "how to", 0)
    requires !Contains(s[6..], "how to") && !Contains(s[6..], "how do i")
    ensures Cleanup(s) == Strip(s[6..])
  {
    DroppedAtFront(s, "how to");
    ReplaceAbsent(s[6..], "how do i", "");
  }

  /** Removing the phrase can join two halves into a new one, so the
      returned task may still contain "how to". */
  lemma PhraseCanRemain()
    ensures Cleanup("how thow too") == "how to"
  {
    RemovalJoins();
    PhraseIsClean();
  }

  /** "how to" has no "how do i" and needs no stripping. */
  lemma PhraseIsClean()
    ensures Strip(Replace("how to", "how do i", "")) == "how to"
  {
    var p := "how to";
    assert "how do i"[4] == 'd';
    assert forall i :: 0 <= i < |p| ==> p[i] != 'd';
    MissingChar(p, "how do i", 4);
    ReplaceAbsent(p, "how do i", "");
    assert IsLower(p);
    assert p[0] == 'h' && p[5] == 'o';
    AlreadyNormal(p);
  }

  lemma RemovalJoins()
    ensures Replace("how thow too", "how to", "") == "how to"
  {
    var s, p := "how thow too", "how to";
    assert s[5] == 'h' && p[5] == 'o';
    KeptAtFront(s, p, 5);
    assert s[1..] == "ow thow too";
    RemovalJoinsFrom1();
  }

  /** The suffixes of the text keep their characters before the one
      occurrence, which starts at "how too". */
  lemma RemovalJoinsFrom5()
    ensures Replace("how too", "how to", "") == "o"
  {
    var t := "how too";
    assert t[6..] == "o";
    MissingChar("o", "how to", 0);
    DroppedAtFront(t, "how to");
  }

  lemma RemovalJoinsFrom4()
    ensures Replace("thow too", "how to", "") == "to"
  {
    RemovalJoinsFrom5();
    KeptAtFront("thow too", "how to", 0);
    assert "thow too"[1..] == "how too";
  }

  lemma RemovalJoinsFrom3()
    ensures Replace(" thow too", "how to", "") == " to"
  {
    RemovalJoinsFrom4();
    KeptAtFront(" thow too", "how to", 0);
    assert " thow too"[1..] == "thow too";
  }

  lemma RemovalJoinsFrom2()
    ensures Replace("w thow too", "how to", "") == "w to"
  {
    RemovalJoinsFrom3();
    KeptAtFront("w thow too", "how to", 0);
    assert "w thow too"[1..] == " thow too";
  }

  lemma RemovalJoinsFrom1()
    ensures Replace("ow thow too", "how to", "") == "ow to"
  {
    RemovalJoinsFrom2();
    KeptAtFront("ow thow too", "how to", 0);
    assert "ow thow too"[1..] == "w thow too";
  }

  /** A task that is only the phrase passes the blank check and comes back
      empty. */
  lemma PhraseAloneGivesEmptyTask()
    ensures Cleanup("how to") == ""
  {
    var p := "how to";
    assert p[6..] == [];
    DroppedAtFront(p, p);
  }
}
