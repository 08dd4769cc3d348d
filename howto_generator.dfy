/** The how-to guide service: clean the language model's reply, parse it,
    check it has the five-step shape the front end needs, and answer the
    `/generate-howto` request with 200, 400 or 500. The model call and
    `json.loads` are inputs: the reply (or the fact that the call raised) and
    a parse function that succeeds or raises `JSONDecodeError`. */
module HowtoGenerator {
  import opened Wrappers
  import opened PyText
  import opened PyJson
  import opened Fences

  // ---------------------------------------------------------------- fences

  lemma StartsWithContains(s: string, p: string)
    requires StartsWith(s, p)
    ensures Contains(s, p) && Find(s, p) == 0
  {
  }

  /** The fence removal of `generate_howto_guide`, on already stripped text:
      after a leading "```json", the stripped text up to the next "```";
      after a leading "```", the stripped text between the first two fences;
      otherwise the text itself. The json case cuts at the next json fence
      first, which differs only when the closing fence runs on into one
      ("````json"). */
  function StripFences(text: string): (r: string)
    ensures !StartsWith(text, Fence) ==> r == text
    ensures StartsWith(text, JsonFence) && ClosedByFence(text[|JsonFence|..]) ==>
      r == Strip(Before(text[|JsonFence|..], Fence))
    ensures StartsWith(text, Fence) && !StartsWith(text, JsonFence) ==>
      r == Strip(Before(text[|Fence|..], Fence))
  {
    if StartsWith(text, JsonFence) then
      JsonFenceOpensFence(text, 0);
      JsonFenceCut(text);
      Strip(Split(Split(text, JsonFence)[1], Fence)[0])
    else if StartsWith(text, Fence) then
      PlainFenceCut(text);
      Strip(Split(Split(text, Fence)[1], Fence)[0])
    else text
  }

  /** The two splits of the json case cut at the first fence after the
      marker when that fence is closed. */
  lemma JsonFenceCut(text: string)
    requires StartsWith(text, JsonFence)
    ensures |Split(text, JsonFence)| >= 2
    ensures ClosedByFence(text[|JsonFence|..]) ==>
      Split(Split(text, JsonFence)[1], Fence)[0] == Before(text[|JsonFence|..], Fence)
  {
    var t := text[|JsonFence|..];
    SplitAfterLeading(text, JsonFence);
    var u := Split(text, JsonFence)[1];
    assert u == Before(t, JsonFence);
    assert Split(u, Fence)[0] == Before(u, Fence);
    CutTwice(t);
  }

  /** The two splits of the plain case keep the text between the first two
      fences. */
  lemma PlainFenceCut(text: string)
    requires StartsWith(text, Fence)
    ensures |Split(text, Fence)| >= 2
    ensures Split(Split(text, Fence)[1], Fence)[0] == Before(text[|Fence|..], Fence)
  {
    SplitAfterLeading(text, Fence);
    var u := Split(text, Fence)[1];
    assert u == Before(text[|Fence|..], Fence);
    assert Split(u, Fence)[0] == Before(u, Fence);
  }

  /** A fenced reply keeps no fence: what is left is cut before one. */
  lemma FencedResultHasNoFence(text: string)
    requires StartsWith(text, Fence)
    ensures !Contains(StripFences(text), Fence)
  {
    StartsWithContains(text, Fence);
    if StartsWith(text, JsonFence) {
      StartsWithContains(text, JsonFence);
      var inner := Split(text, JsonFence)[1];
      SplitHeadHasNoSeparator(inner, Fence);
      StripKeepsAbsence(Split(inner, Fence)[0], Fence);
    } else {
      var inner := Split(text, Fence)[1];
      SplitHeadHasNoSeparator(inner, Fence);
      StripKeepsAbsence(Split(inner, Fence)[0], Fence);
    }
  }

  /** In `b + "```" + post` with a backtick-free `b`, the first fence is the
      one after `b`, and it is closed unless `post` opens with a backtick. */
  lemma FenceAfterBody(b: string, post: string)
    requires NoBacktick(b)
    ensures Before(b + Fence + post, Fence) == b
    ensures post == [] || post[0] != '`' ==> ClosedByFence(b + Fence + post)
  {
    var t := b + Fence + post;
    assert t[|b|..|b| + |Fence|] == Fence;
    FindAfterStretch(t, Fence, 0, |b|);
    assert Find(t, Fence) == |b|;
    assert t[..|b|] == b;
    if post != [] {
      assert t[|b| + |Fence|] == post[0];
    }
  }

  /** A json-fenced body comes back stripped, whatever follows the closing
      fence, provided it does not open with a backtick. */
  lemma JsonFenceRoundTrip(b: string, post: string)
    requires NoBacktick(b)
    requires post == [] || post[0] != '`'
    ensures StripFences(JsonFence + b + Fence + post) == Strip(b)
  {
    var s := JsonFence + b + Fence + post;
    assert s == JsonFence + (b + Fence + post);
    assert s[|JsonFence|..] == b + Fence + post;
    assert OccursAt(s, JsonFence, 0);
    FenceAfterBody(b, post);
  }

  /** A body between two plain fences comes back stripped, whatever follows
      the closing fence. */
  lemma PlainFenceRoundTrip(b: string, post: string)
    requires NoBacktick(b)
    requires !StartsWith(Fence + b + Fence + post, JsonFence)
    ensures StripFences(Fence + b + Fence + post) == Strip(b)
  {
    var s := Fence + b + Fence + post;
    assert s == Fence + (b + Fence + post);
    assert s[|Fence|..] == b + Fence + post;
    assert OccursAt(s, Fence, 0);
    FenceAfterBody(b, post);
  }

  /** `generate_howto_guide` strips the reply before removing its fences: a
      json-fenced reply whose tail ends in a visible character still gives
      its stripped body. */
  lemma FencedReplyBody(b: string, post: string)
    requires NoBacktick(b)
    requires post == [] || (post[0] != '`' && !IsSpace(post[|post| - 1]))
    ensures StripFences(Strip(JsonFence + b + Fence + post)) == Strip(b)
  {
    var raw := JsonFence + b + Fence + post;
    assert raw[0] == '`';
    assert raw[|raw| - 1] == if post == [] then '`' else post[|post| - 1];
    StripUnpadded(raw);
    JsonFenceRoundTrip(b, post);
  }

  /** In `b + "`" + "```json"` with a backtick-free `b`, the first json
      fence is the appended one. */
  lemma JsonFenceAfterBacktick(b: string)
    requires NoBacktick(b)
    ensures Find(b + "`" + JsonFence, JsonFence) == |b| + 1
  {
    var t := b + "`" + JsonFence;
    assert t[|b| + 1..] == JsonFence;
    assert OccursAt(t, JsonFence, |b| + 1);
    forall i | 0 <= i <= |b| ensures !OccursAt(t, JsonFence, i) {
      if i < |b| {
        assert t[i] == b[i];
        Mismatch(t, JsonFence, i, 0);
      } else {
        assert t[i + 3] == JsonFence[2];
        Mismatch(t, JsonFence, i, 3);
      }
    }
    FirstOccurrence(t, JsonFence, |b| + 1);
  }

  /** When the closing fence runs on into a json fence, the cut at that json
      fence wins and a backtick stays: "```jsonx````json" leaves "x`", not
      "x". */
  lemma JsonFenceRunOn(b: string)
    requires NoBacktick(b)
    ensures StripFences(JsonFence + b + "`" + JsonFence) == Strip(b + "`")
  {
    var u := b + "`";
    var t := u + JsonFence;
    var s := JsonFence + b + "`" + JsonFence;
    ConcatAssoc(JsonFence, b, "`");
    ConcatAssoc(JsonFence, u, JsonFence);
    assert s == JsonFence + t;
    assert s[|JsonFence|..] == t;
    assert OccursAt(s, JsonFence, 0);
    SplitAfterLeading(s, JsonFence);
    JsonFenceAfterBacktick(b);
    assert t[..|u|] == u;
    assert Split(s, JsonFence)[1] == u;
    forall i | 0 <= i < |b| ensures !OccursAt(u, Fence, i) {
      assert u[i] == b[i];
      Mismatch(u, Fence, i, 0);
    }
    assert Split(u, Fence)[0] == u;
    assert StripFences(s) == Strip(Split(Split(s, JsonFence)[1], Fence)[0]);
  }

  // ---------------------------------------------------------------- validation

  /** The keys every step must have. */
  const RequiredFields: seq<string> := ["title", "description", "detailedHelp", "step", "totalSteps"]

  /** The number of steps a guide must have. */
  const GuideLength := 5

  function NotIterable(v: Json): string {
    "argument of type '" + TypeName(v) + "' is not iterable"
  }

  /** `all(field in step for field in required_fields)`: `in` raises on the
      first field when `step` is not a container; otherwise the fields are
      tested in order and the first missing one ends the test. */
  function StepHasFields(step: Json): (r: Result<bool>)
    ensures r.Raised? <==> In(RequiredFields[0], step).None?
    ensures r.Raised? ==> r.message == NotIterable(step)
    ensures r.Success? ==> (r.value <==> forall f :: f in RequiredFields ==> In(f, step) == Some(true))
  {
    match In(RequiredFields[0], step)
    case None => Raised(NotIterable(step))
    case Some(_) => Success(forall f :: f in RequiredFields ==> In(f, step) == Some(true))
  }

  /** The `for step in data['steps']` check with its early `return False`:
      it accepts only lists whose every step is complete. */
  function StepsHaveFields(steps: seq<Json>): (r: Result<bool>)
    ensures r == Success(true) ==> forall i :: 0 <= i < |steps| ==> CompleteStep(steps[i])
  {
    if steps == [] then Success(true)
    else
      match StepHasFields(steps[0])
      case Raised(m) => Raised(m)
      case Success(false) => Success(false)
      case Success(true) =>
        assert forall i :: 0 < i < |steps| ==> steps[i] == steps[1..][i - 1];
        StepsHaveFields(steps[1..])
  }

  /** `validate_howto_structure(data)`; `Raised` when a step is not a
      container and `in` raises. */
  function ValidateHowtoStructure(data: Json): (r: Result<bool>)
    ensures r == Success(true) ==> IsValidGuide(data)
    ensures r.Raised? ==> data.JObj?
  {
    if !data.JObj? then Success(false)
    else if !HasKey(data.members, "title") || !HasKey(data.members, "steps") then Success(false)
    else
      var steps := Lookup(data.members, "steps").value;
      if !steps.JArr? || |steps.items| != GuideLength then Success(false)
      else StepsHaveFields(steps.items)
  }

  /** A step the front end can show: a container holding every field. */
  predicate CompleteStep(step: Json) {
    forall f :: f in RequiredFields ==> In(f, step) == Some(true)
  }

  /** The shape the validator is meant to accept: a dict with a title and a
      list of exactly five complete steps. */
  predicate IsValidGuide(data: Json) {
    && data.JObj? && HasKey(data.members, "title") && HasKey(data.members, "steps")
    && var steps := Lookup(data.members, "steps").value;
    && steps.JArr? && |steps.items| == GuideLength
    && forall i :: 0 <= i < |steps.items| ==> CompleteStep(steps.items[i])
  }

  /** The loop accepts exactly when every step is complete, and raises
      exactly when its first incomplete step is not a container. */
  lemma StepsHaveFieldsMeaning(steps: seq<Json>)
    ensures StepsHaveFields(steps) == Success(true) <==>
      forall i :: 0 <= i < |steps| ==> CompleteStep(steps[i])
    ensures StepsHaveFields(steps).Raised? <==>
      exists k :: 0 <= k < |steps| && In(RequiredFields[0], steps[k]).None?
        && forall i :: 0 <= i < k ==> CompleteStep(steps[i])
  {
    StepsHaveFieldsAccept(steps);
    StepsHaveFieldsRaise(steps);
  }

  /** One step passes exactly when it is complete, and raises exactly when
      `in` cannot test its first field. */
  lemma StepHasFieldsCases(step: Json)
    ensures StepHasFields(step) == Success(true) <==> CompleteStep(step)
    ensures StepHasFields(step).Raised? <==> In(RequiredFields[0], step).None?
  {
    if StepHasFields(step).Raised? {
      assert RequiredFields[0] in RequiredFields;
    }
  }

  /** The loop runs on past the first step exactly when that step passes. */
  lemma StepsHaveFieldsUnfold(steps: seq<Json>)
    requires steps != []
    ensures StepsHaveFields(steps) == Success(true) <==>
      StepHasFields(steps[0]) == Success(true) && StepsHaveFields(steps[1..]) == Success(true)
    ensures StepsHaveFields(steps).Raised? <==>
      StepHasFields(steps[0]).Raised? ||
      (StepHasFields(steps[0]) == Success(true) && StepsHaveFields(steps[1..]).Raised?)
  {
  }

  lemma {:induction false} StepsHaveFieldsAccept(steps: seq<Json>)
    ensures StepsHaveFields(steps) == Success(true) <==>
      forall i :: 0 <= i < |steps| ==> CompleteStep(steps[i])
  {
    if steps != [] {
      StepsHaveFieldsAccept(steps[1..]);
      StepsHaveFieldsUnfold(steps);
      StepHasFieldsCases(steps[0]);
      assert forall i :: 0 < i < |steps| ==> steps[1..][i - 1] == steps[i];
    }
  }

  lemma {:induction false} StepsHaveFieldsRaise(steps: seq<Json>)
    ensures StepsHaveFields(steps).Raised? <==>
      exists k :: 0 <= k < |steps| && In(RequiredFields[0], steps[k]).None?
        && forall i :: 0 <= i < k ==> CompleteStep(steps[i])
  {
    if StepsHaveFields(steps).Raised? {
      var k := RaiseWitness(steps);
    } else {
      forall k | 0 <= k < |steps| && In(RequiredFields[0], steps[k]).None?
        ensures !forall i :: 0 <= i < k ==> CompleteStep(steps[i])
      {
        if forall i :: 0 <= i < k ==> CompleteStep(steps[i]) {
          RaiseAt(steps, k);
        }
      }
    }
  }

  /** A raising loop stops at a step that is not a container, after complete
      ones. */
  lemma {:induction false} RaiseWitness(steps: seq<Json>) returns (k: nat)
    requires StepsHaveFields(steps).Raised?
    ensures k < |steps| && In(RequiredFields[0], steps[k]).None?
    ensures forall i :: 0 <= i < k ==> CompleteStep(steps[i])
  {
    StepsHaveFieldsUnfold(steps);
    StepHasFieldsCases(steps[0]);
    if StepHasFields(steps[0]).Raised? {
      k := 0;
    } else {
      var tail := steps[1..];
      var j := RaiseWitness(tail);
      k := j + 1;
      assert steps[k] == tail[j];
      assert forall i :: 0 < i < k ==> steps[i] == tail[i - 1];
    }
  }

  /** A step that is not a container, after complete ones, makes the loop
      raise. */
  lemma {:induction false} RaiseAt(steps: seq<Json>, k: nat)
    requires k < |steps| && In(RequiredFields[0], steps[k]).None?
    requires forall i :: 0 <= i < k ==> CompleteStep(steps[i])
    ensures StepsHaveFields(steps).Raised?
    decreases k
  {
    StepsHaveFieldsUnfold(steps);
    StepHasFieldsCases(steps[0]);
    if k > 0 {
      var tail := steps[1..];
      assert tail[k - 1] == steps[k];
      assert forall i :: 0 <= i < k - 1 ==> tail[i] == steps[i + 1];
      RaiseAt(tail, k - 1);
    }
  }

  /** The validator accepts exactly the valid guides. */
  lemma ValidateMeaning(data: Json)
    ensures ValidateHowtoStructure(data) == Success(true) <==> IsValidGuide(data)
  {
    if data.JObj? && HasKey(data.members, "title") && HasKey(data.members, "steps") {
      var steps := Lookup(data.members, "steps").value;
      if steps.JArr? && |steps.items| == GuideLength {
        StepsHaveFieldsMeaning(steps.items);
      }
    }
  }

  /** Anything but a dict, and a dict without "title" or "steps", is rejected
      without raising. */
  lemma ValidateRejectsShape(data: Json)
    requires !data.JObj? || !HasKey(data.members, "title") || !HasKey(data.members, "steps")
    ensures ValidateHowtoStructure(data) == Success(false)
  {
  }

  /** Steps that are not a list of exactly five are rejected. */
  lemma ValidateRejectsLength(data: Json)
    requires data.JObj? && HasKey(data.members, "title") && HasKey(data.members, "steps")
    requires var steps := Lookup(data.members, "steps").value;
      !steps.JArr? || |steps.items| != GuideLength
    ensures ValidateHowtoStructure(data) == Success(false)
  {
  }

  // ---------------------------------------------------------------- guide

  /** What `generate_howto_guide` returns: `{"success": True, "data": …}` or
      `{"success": False, "error": …}` with `details` for a parse error. */
  datatype Outcome = Guide(data: Json) | Failure(error: string, details: Option<string>)

  const ParseError := "Failed to parse LLM response"
  const ShapeError := "Invalid how-to structure from LLM"

  /** `generate_howto_guide(text)` given the model's reply and `json.loads`. */
  function GenerateHowtoGuide(reply: Result<string>, parse: string -> Result<Json>): (o: Outcome)
    ensures o.Guide? ==> IsValidGuide(o.data)
    ensures o.Failure? && o.details.Some? ==> o.error == ParseError
    ensures reply.Raised? ==> o == Failure(reply.message, None)
  {
    match reply
    case Raised(m) => Failure(m, None)
    case Success(raw) =>
      var body := StripFences(Strip(raw));
      match parse(body)
      case Raised(m) => Failure(ParseError, Some(m))
      case Success(data) =>
        match ValidateHowtoStructure(data)
        case Raised(m) => Failure(m, None)
        case Success(ok) => if ok then Guide(data) else Failure(ShapeError, None)
  }

  /** A guide is returned only for a valid parse of the cleaned reply; every
      other path is a failure with one of the three kinds of message. */
  lemma GuideMeaning(reply: Result<string>, parse: string -> Result<Json>)
    ensures var o := GenerateHowtoGuide(reply, parse);
      o.Guide? <==> && reply.Success?
                    && parse(StripFences(Strip(reply.value))).Success?
                    && IsValidGuide(parse(StripFences(Strip(reply.value))).value)
    ensures var o := GenerateHowtoGuide(reply, parse);
      o.Guide? ==> o.data == parse(StripFences(Strip(reply.value))).value
    ensures var o := GenerateHowtoGuide(reply, parse);
      o.Failure? && o.details.Some? ==> o.error == ParseError
  {
    if reply.Success? {
      var p := parse(StripFences(Strip(reply.value)));
      if p.Success? {
        ValidateMeaning(p.value);
      }
    }
  }

  // ---------------------------------------------------------------- endpoint

  datatype Response = Response(status: int, body: Outcome)

  const MissingTranscription := "Missing transcription in request"

  /** `generate_howto_endpoint()`: `payload` is what `request.get_json()`
      returned or raised. */
  function HowtoEndpoint(payload: Result<Json>, reply: Result<string>, parse: string -> Result<Json>): (r: Response)
    ensures r.status in {200, 400, 500}
    ensures r.status == 200 <==> r.body.Guide?
    ensures r.status == 200 ==> IsValidGuide(r.body.data)
  {
    match payload
    case Raised(m) => Response(500, Failure(m, None))
    case Success(data) =>
      if !Truthy(data) then Response(400, Failure(MissingTranscription, None))
      else
        match In("transcription", data)
        case None => Response(500, Failure(NotIterable(data), None))
        case Some(present) =>
          if !present then Response(400, Failure(MissingTranscription, None))
          else
            match Subscript(data, "transcription")
            case Raised(m) => Response(500, Failure(m, None))
            case Success(_) =>
              var result := GenerateHowtoGuide(reply, parse);
              if result.Guide? then Response(200, result) else Response(500, result)
  }

  /** The status is 200 exactly for a guide, 400 exactly for a falsy body or a
      dict without "transcription", and 500 otherwise. */
  lemma EndpointStatus(payload: Result<Json>, reply: Result<string>, parse: string -> Result<Json>)
    ensures var r := HowtoEndpoint(payload, reply, parse);
      && r.status in {200, 400, 500}
      && (r.status == 200 <==> r.body.Guide?)
      && (r.status == 400 <==>
            (payload.Success? && (!Truthy(payload.value) || In("transcription", payload.value) == Some(false))))
      && (r.status == 400 ==> r.body == Failure(MissingTranscription, None))
  {
  }

  /** A dict body holding "transcription" is answered with the guide outcome. */
  lemma EndpointForwardsGuide(data: Json, reply: Result<string>, parse: string -> Result<Json>)
    requires data.JObj? && HasKey(data.members, "transcription")
    ensures HowtoEndpoint(Success(data), reply, parse).body == GenerateHowtoGuide(reply, parse)
  {
  }
}
