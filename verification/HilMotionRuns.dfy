/** What a passed run says about the motion itself: the endpoint was seen turning as it was told to. */
module HilMotionRuns {
  import opened HilText
  import opened HilManifest
  import opened HilRunner
  import opened HilRuns
  import opened Prelude
  import HE = HilExamples

  /** The request that stops an endpoint, by the text that is sent. */
  predicate StopsEndpoint(request: Request) {
    request.SendStep? && Words(request.command) != [] && Upper(Words(request.command)[0]) == "STOP_ENDPOINT"
  }

  lemma {:induction false} StopVerb(name: string)
    ensures VerbNamed(name) == Some(StopEndpoint) <==> name == "STOP_ENDPOINT"
  {
    assert "STOP_ENDPOINT"[0] != "COMPOSITION_STATUS"[0];
  }

  lemma {:induction false} StopsEndpointIff(request: Request)
    ensures StopsEndpoint(request) <==> request.SendStep? && VerbOf(request.command) == Some(StopEndpoint)
  {
    hide Words, Upper, VerbNamed;
    if request.SendStep? && Words(request.command) != [] {
      StopVerb(Upper(Words(request.command)[0]));
    }
  }

  lemma {:induction false} StopsItsVerb(job: Job, k: nat)
    requires Accepts(job.manifest) && k < |job.manifest.steps|
    requires job.manifest.steps[k].Send? ==> TextsOf(job, job.manifest.steps[k]).Some?
    ensures StopsEndpoint(RequestOf(job, k)) <==> IsStop(job.manifest.steps[k])
  {
    hide Accepts, Rendered, AssertionFits, WordsFit, PrefixFits, TemplateFits, Identifier, VerbNamed, Words, Upper;
    if job.manifest.steps[k].Send? {
      StepsArePlain(job.manifest, k);
      VerbSurvives(job.python, ContextOf(job), job.manifest.steps[k].command);
      var command := TextsOf(job, job.manifest.steps[k]).value.0;
      if Words(command) != [] {
        StopVerb(Upper(Words(command)[0]));
      }
    }
  }

  /** The observation names the endpoint of the program, whatever the variables hold. */
  lemma {:induction false} ObservationWords(job: Job, k: nat)
    requires Accepts(job.manifest) && k < |job.manifest.steps| && Does(job.manifest.steps[k], GetObservation)
    requires TextsOf(job, job.manifest.steps[k]).Some?
    ensures Words(TextsOf(job, job.manifest.steps[k]).value.0) ==
              ["GET_ENDPOINT_OBSERVATION", job.manifest.target.endpointId]
  {
    hide Accepts, VerbOf, Upper, Rendered, AssertionFits, TemplateFits, Filled, Words, Solid, Identifier, PrefixFits;
    var m, step := job.manifest, job.manifest.steps[k];
    StepsArePlain(m, k);
    MotionVariableIsName(m);
    EndpointFills(job);
    ObservationRenders(job, Words(step.command));
    RenderedWords(job.python, ContextOf(job), step.command, ["GET_ENDPOINT_OBSERVATION", m.target.endpointId]);
  }

  lemma {:induction false} ObservationRenders(job: Job, words: seq<string>)
    requires words == ["GET_ENDPOINT_OBSERVATION", "{endpoint_id}"]
    requires Filled(job.python, ContextOf(job), "endpoint_id") == Some(job.manifest.target.endpointId)
    requires Solid(job.manifest.target.endpointId)
    ensures WordsRender(job.python, ContextOf(job), words, ["GET_ENDPOINT_OBSERVATION", job.manifest.target.endpointId])
  {
    hide Filled, Solid, Braceless, WordRenders;
    var texts := ["GET_ENDPOINT_OBSERVATION", job.manifest.target.endpointId];
    assert WordRenders(job.python, ContextOf(job), words[0], texts[0]) by {
      ObservationIsWord();
      PlainWord(job.python, ContextOf(job), words[0]);
    }
    assert WordRenders(job.python, ContextOf(job), words[1], texts[1]) by {
      EndpointWord(job.python, ContextOf(job), texts[1]);
    }
  }

  lemma {:induction false} ObservationIsWord()
    ensures Solid("GET_ENDPOINT_OBSERVATION") && Braceless("GET_ENDPOINT_OBSERVATION")
  {
  }

  lemma {:induction false} PlainWord(py: Python, context: Context, word: string)
    requires Solid(word) && Braceless(word)
    ensures WordRenders(py, context, word, word)
  {
  }

  lemma {:induction false} EndpointWord(py: Python, context: Context, id: string)
    requires Filled(py, context, "endpoint_id") == Some(id) && Solid(id)
    ensures WordRenders(py, context, "{endpoint_id}", id)
  {
    hide Filled, Solid;
    var word := "{endpoint_id}";
    assert word == HoleOf("endpoint_id");
    assert word[1..|word| - 1] == "endpoint_id";
  }

  lemma {:induction false} StopIsWord()
    ensures Solid("STOP_ENDPOINT") && Braceless("STOP_ENDPOINT")
  {
  }

  lemma {:induction false} StopAnswerText()
    ensures Braceless("OK STOP_ENDPOINT ID:")
    ensures "OK STOP_ENDPOINT ID:{endpoint_id}" == "OK STOP_ENDPOINT ID:" + (HoleOf("endpoint_id") + "")
  {
  }

  lemma {:induction false} StopTexts(job: Job, k: nat)
    requires Accepts(job.manifest) && k < |job.manifest.steps| && IsStop(job.manifest.steps[k])
    ensures TextsOf(job, job.manifest.steps[k]).Some?
    ensures var texts := TextsOf(job, job.manifest.steps[k]).value; var id := job.manifest.target.endpointId;
            Words(texts.0) == ["STOP_ENDPOINT", id] && texts.1 == "OK STOP_ENDPOINT ID:" + (id + "")
  {
    hide Accepts, VerbOf, Upper, Rendered, AssertionFits, TemplateFits, Filled, Words, Solid, Identifier, Braceless,
         HoleOf, WordRenders;
    var m, step := job.manifest, job.manifest.steps[k];
    var py, context := job.python, ContextOf(job);
    StepsArePlain(m, k);
    MotionVariableIsName(m);
    EndpointFills(job);
    StopIsWord();
    StopAnswerText();
    var words, texts := ["STOP_ENDPOINT", "{endpoint_id}"], ["STOP_ENDPOINT", m.target.endpointId];
    PlainWord(py, context, words[0]);
    EndpointWord(py, context, texts[1]);
    RenderedWords(py, context, step.command, texts);
    NothingRenders(py, context);
    EndpointHoleRenders(job);
    BracelessRenders(py, context, "OK STOP_ENDPOINT ID:", HoleOf("endpoint_id") + "");
  }

  lemma {:induction false} EndpointHoleRenders(job: Job)
    requires Filled(job.python, ContextOf(job), "endpoint_id") == Some(job.manifest.target.endpointId)
    ensures Rendered(job.python, ContextOf(job), HoleOf("endpoint_id") + "")
            == Some(job.manifest.target.endpointId + "")
  {
    hide Rendered, Filled, HoleOf;
    NothingRenders(job.python, ContextOf(job));
    EndpointIsName();
    HoleRenders(job.python, ContextOf(job), "endpoint_id", "");
  }

  lemma {:induction false} EndpointIsName()
    ensures "endpoint_id" != "" && forall c | c in "endpoint_id" :: !Special(c)
  {
  }

  /** Every stop of an endpoint in a run is one of the endpoint of the program, and has passed only when the
      last line of its answer says exactly that. */
  lemma {:induction false} StopIsOfTheEndpoint(job: Job, signal: Signal, e: Evidence, p: nat)
    requires IsRun(job, signal, e) && p < |e.trace| && StopsEndpoint(e.trace[p].request)
    ensures Words(e.trace[p].request.command) == ["STOP_ENDPOINT", job.manifest.target.endpointId]
    ensures p < e.prepared + e.done ==>
              var lines := e.trace[p].reply.lines;
              lines != [] && lines[|lines| - 1] == "OK STOP_ENDPOINT ID:" + job.manifest.target.endpointId
  {
    hide Accepts, Recorded, Words, Upper, VerbOf, TextsOf, StopsEndpoint, ReplyError;
    StopsEndpointIff(e.trace[p].request);
    StepsAreInPlace(job, signal, e, p);
    var k := p - e.prepared;
    StopsItsVerb(job, k);
    StopTexts(job, k);
    if p < e.prepared + e.done {
      PassedStopAnswer(job, signal, e, k);
    }
  }

  lemma {:induction false} PassedStopAnswer(job: Job, signal: Signal, e: Evidence, k: nat)
    requires Recorded(job, signal, e) && k < e.done && k < |job.manifest.steps| && IsStop(job.manifest.steps[k])
    requires TextsOf(job, job.manifest.steps[k]).Some?
    requires VerbOf(TextsOf(job, job.manifest.steps[k]).value.0) == Some(StopEndpoint)
    ensures e.prepared + k < |e.trace|
    ensures var lines := e.trace[e.prepared + k].reply.lines;
            lines != [] && lines[|lines| - 1] == TextsOf(job, job.manifest.steps[k]).value.1
  {
    hide VerbOf, TextsOf, AssertionError, Finished, Ran, Caused, Connects, Prepared;
    assert StepPassed(job, e.trace, e.prepared, k);
  }

  // ------------------------------------------------------------------------------------- the gates

  lemma {:induction false} BracelessText(py: Python, context: Context, s: string)
    requires Braceless(s)
    ensures Rendered(py, context, s) == Some(s)
  {
    hide Rendered;
    BracelessRenders(py, context, s, "");
    NothingRenders(py, context);
    assert s + "" == s;
  }

  lemma {:induction false} QueriesAreBraceless()
    ensures Braceless("COMPOSITION_STATUS") && Braceless("PLATFORM_STATUS") && Braceless("SAFETY_STATUS")
  {
  }

  /** What the k-th gate asks the gateway. */
  predicate Asks(job: Job, command: string, k: nat) {
    match k
    case 0 => command == "COMPOSITION_STATUS"
    case 1 => command == "PLATFORM_STATUS"
    case 2 => command == "SAFETY_STATUS"
    case _ => Words(command) == ["GET_ENDPOINT_OBSERVATION", job.manifest.target.endpointId]
  }

  /** The answer that lets the k-th gate pass. */
  predicate Permits(job: Job, r: Reply, k: nat) {
    && r.error == NoError && |r.records| == 1 && r.observed.Some?
    && match k
       case 0 => r.observed.value == 1.0 && Has(r.records[0], COMPOSED)
       case 1 => r.observed.value == 0.0 && Has(r.records[0], PARKED)
       case 2 => r.observed.value == 0.0 && Has(r.records[0], SUPERVISED)
       case _ =>
         && -1.0 < r.observed.value < 1.0 && Has(r.records[0], HEALTHY)
         && Names(r.records[0], job.manifest.target.endpointId)
  }

  lemma {:induction false} GateAsks(job: Job, index: nat, k: nat)
    requires Accepts(job.manifest) && index < |job.manifest.steps| && k < 4
    requires GateContract(job.manifest.steps[index], k)
    requires TextsOf(job, job.manifest.steps[index]).Some?
    ensures job.manifest.steps[index].Send?
    ensures Asks(job, TextsOf(job, job.manifest.steps[index]).value.0, k)
  {
    hide Accepts, Rendered, Normalized, Words, Braceless;
    var step := job.manifest.steps[index];
    if k < 3 {
      QueriesAreBraceless();
      BracelessText(job.python, ContextOf(job), step.command);
    } else {
      ObservationIsAsked(job.manifest, step);
      ObservationWords(job, index);
    }
  }

  lemma {:induction false} ObservationIsAsked(m: Manifest, step: Step)
    requires step.Send? && step.command == "GET_ENDPOINT_OBSERVATION {endpoint_id}"
    ensures Does(step, GetObservation)
  {
    hide VerbOf;
    HE.PlainObserve(m);
  }

  lemma {:induction false} GatePermits(job: Job, step: Step, k: nat, r: Reply)
    requires k < 4 && GateContract(step, k) && ReplyError(job, step, r) == NoError
    ensures Permits(job, r, k)
  {
    hide GateContract, ReplyError, Has, Names;
    PassedGateMeans(job, step, k, r);
  }

  /** The k-th of the four acts before p asks what the k-th gate asks, and its answer lets the gate pass. */
  predicate Cleared(job: Job, trace: seq<Act>, p: nat, k: nat)
    requires k < 4 <= p <= |trace|
  {
    var act := trace[p - 4 + k];
    act.request.SendStep? && Asks(job, act.request.command, k) && Permits(job, act.reply, k)
  }

  /** In front of any speed stand four questions and their answers: the composition is active and ready, the
      platform idles without a fault, the safety supervision runs without one, and the endpoint of the program
      itself is healthy and stands still. */
  lemma {:induction false} GatesAreAnswered(job: Job, signal: Signal, e: Evidence, p: nat)
    requires IsRun(job, signal, e) && p < |e.trace| && SetsSpeed(e.trace[p].request)
    ensures 9 <= p && forall k | 0 <= k < 4 :: Cleared(job, e.trace, p, k)
  {
    hide Accepts, Recorded, GateContract, ReplyError, TextsOf, SetsSpeed, Asks, Permits;
    SpeedIsGated(job, signal, e, p);
    forall k: nat | k < 4 ensures Cleared(job, e.trace, p, k) {
      assert GatePassed(job, e.trace, p, k);
      var act := e.trace[p - 4 + k];
      StepsAreInPlace(job, signal, e, p - 4 + k);
      GateAsks(job, act.request.index, k);
      GatePermits(job, job.manifest.steps[act.request.index], k, act.reply);
    }
  }

  // ------------------------------------------------------------------------------------ the motion

  /** The answer to a motion is compared with the speed that was asked for. */
  lemma {:induction false} ResponseNumber(job: Job, a: Assertion, r: Reply)
    requires ResponseContract(job.manifest, a) && AssertionError(job, a, r) == NoError
    requires Speed(job) != 0 && PlainVariable(job.manifest.motionVariable)
    ensures r.observed.Some? && |r.records| == 1
    ensures -a.tolerance <= r.observed.value - Speed(job) as real <= a.tolerance
    ensures Has(r.records[0], HEALTHY) && Names(r.records[0], job.manifest.target.endpointId)
  {
    hide Carries, Names, Normalized, Has, AssertionError, Upper, SmallestSetpoint;
    AssertionMeans(job, a, r);
    CarriesHas(r.records[0], a.required, HEALTHY);
  }

  lemma {:induction false} PassedAssertion(job: Job, step: Step, r: Reply)
    requires Answers(step) && ReplyError(job, step, r) == NoError
    ensures AssertionError(job, step.assertion.value, r) == NoError
  {
    hide TextsOf, Matches, AssertionError, VerbOf;
  }

  /** Within such a tolerance of the speed, the endpoint turns, and in the direction of the speed. */
  lemma {:induction false} TurnsTheRightWay(m: Manifest, a: Assertion, speed: int, observed: real)
    requires ResponseContract(m, a) && Minimum(m) <= speed <= Maximum(m) && speed != 0
    requires -a.tolerance <= observed - speed as real <= a.tolerance
    ensures speed > 0 ==> observed > 0.0
    ensures speed < 0 ==> observed < 0.0
  {
    hide Normalized, Upper;
  }

  /** A step of a passed run stands at its place. */
  lemma {:induction false} PassedStep(job: Job, signal: Signal, e: Evidence, k: nat)
    requires IsRun(job, signal, e) && e.status == Pass && k < |job.manifest.steps|
    ensures e.prepared + k < e.last <= |e.trace| && e.trace[e.prepared + k].request == RequestOf(job, k)
    ensures ReplyError(job, job.manifest.steps[k], e.trace[e.prepared + k].reply) == NoError
    ensures job.manifest.steps[k].Send? ==> TextsOf(job, job.manifest.steps[k]).Some?
  {
    hide Accepts, Cleaned, ReplyError, TextsOf, RequestOf, AttemptsMotion, Prepared, Connects, StatusOf;
    PassIff(job, signal, e);
    assert StepPassed(job, e.trace, e.prepared, k);
    PassedIsRendered(job, e.trace, e.prepared, k);
  }

  lemma {:induction false} NotStopped(job: Job, signal: Signal, e: Evidence, motion: nat, answer: nat, q: nat)
    requires IsRun(job, signal, e) && e.status == Pass && FirstAnswer(job.manifest, motion, answer)
    requires e.prepared + motion < q <= e.prepared + answer
    ensures q < |e.trace| && IsStep(e.trace[q].request) && !StopsEndpoint(e.trace[q].request)
  {
    hide Accepts, Recorded, StopsEndpoint, TextsOf, ReplyError, ResponseContract, VerbNamed, Words, Upper;
    PassedStep(job, signal, e, q - e.prepared);
    StopsItsVerb(job, q - e.prepared);
  }

  /** In every run that passes, the endpoint of the program was observed after the speed was set and before
      anything stopped it: one healthy record of its own, with a number within the tolerance of the speed
      that was asked for.  The number is not zero and has the sign of the speed. */
  lemma {:induction false} PassMeansMoved(job: Job, signal: Signal, e: Evidence)
    returns (p: nat, r: nat, tolerance: real)
    requires IsRun(job, signal, e) && e.status == Pass && PlainVariable(job.manifest.motionVariable)
    ensures p < r < e.last <= |e.trace| && SetsSpeed(e.trace[p].request)
    ensures forall q | p < q <= r :: IsStep(e.trace[q].request) && !StopsEndpoint(e.trace[q].request)
    ensures e.trace[r].request.SendStep?
            && Words(e.trace[r].request.command) == ["GET_ENDPOINT_OBSERVATION", job.manifest.target.endpointId]
    ensures var reply := e.trace[r].reply;
            && |reply.records| == 1 && reply.observed.Some?
            && Has(reply.records[0], HEALTHY) && Names(reply.records[0], job.manifest.target.endpointId)
            && -tolerance <= reply.observed.value - Speed(job) as real <= tolerance < Abs(Speed(job) as real)
            && (Speed(job) > 0 <==> reply.observed.value > 0.0)
            && (Speed(job) < 0 <==> reply.observed.value < 0.0)
  {
    hide Accepts, Recorded, ReplyError, VerbNamed, Words, Upper, TextsOf, AllPlain, SetsSpeed, StopsEndpoint,
         ResponseContract, IsMotion, HEALTHY;
    var m := job.manifest;
    var motion, answer, cleanup := AcceptedIsProgram(m);
    MotionIsMarked(m, motion, answer, cleanup);
    MotionIsSent(m, motion);
    PassedStep(job, signal, e, motion);
    SendsItsVerb(job, motion);
    PassedStep(job, signal, e, answer);
    ObservationWords(job, answer);
    p, r := e.prepared + motion, e.prepared + answer;
    var a := m.steps[answer].assertion.value;
    tolerance := a.tolerance;
    forall q | p < q <= r ensures IsStep(e.trace[q].request) && !StopsEndpoint(e.trace[q].request) {
      NotStopped(job, signal, e, motion, answer, q);
    }
    PassedAssertion(job, m.steps[answer], e.trace[r].reply);
    ResponseNumber(job, a, e.trace[r].reply);
    TurnsTheRightWay(m, a, Speed(job), e.trace[r].reply.observed.value);
    StandstillIsNoAnswer(m, a, Speed(job));
  }
}
