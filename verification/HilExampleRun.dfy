/** A run of the velocity program, with its speed by the name of endpoint_id, that sends another speed
    than the one that was asked for and checked. */
module HilExampleRun {
  import opened HilText
  import opened HilManifest
  import opened HilRunner
  import opened HilRuns
  import opened HilExamples
  import opened Prelude

  const DIGEST: string := "0123456789" + "0123456789" + "0123456789" + "0123456789"

  const BENCH: Found := Found(
    "1", "bench_motor", {"VELOCITY_RPM", "VELOCITY_OBSERVATION", "STOPPABLE"}, true, "DEVELOPMENT", -5, 5)

  /** No signal arrives. */
  ghost predicate Quiet(signal: Signal) {
    forall trace: seq<Act>, moment: Moment :: !signal(trace, moment)
  }

  /** Asks the program for a speed of 3, by the name of endpoint_id. */
  function ThreeRpm(py: Python): Job {
    Job(VelocityProgram("endpoint_id"), Expectations(DIGEST, false, "bench_single_svd48_motor", "bench"),
        map["endpoint_id" := Integer(3)], REQUIRED_CONFIRMATIONS, true, py)
  }

  function Plainly(lines: seq<string>): Reply {
    Reply(NoError, lines, None, [], None)
  }

  /** The answer that the k-th gate waits for. */
  function GateAnswer(py: Python, k: nat): Reply
    requires k < 4
  {
    var step := Steps("endpoint_id")[k + 1];
    var texts := TextsOf(ThreeRpm(py), step);
    var fields := if k == 0 then COMPOSED else if k == 1 then PARKED else if k == 2 then SUPERVISED else HEALTHY;
    Reply(NoError, if texts.Some? then [texts.value.1] else [], Some(if k == 0 then 1.0 else 0.0),
          [fields["ID" := "1"]], None)
  }

  function StepAct(py: Python, k: nat, reply: Reply): Act
    requires k < 11
  {
    Act(RequestOf(ThreeRpm(py), k), reply)
  }

  /** Everything goes well up to the speed, whose answer does not come. */
  function WrongTrace(py: Python): seq<Act> {
    [Act(Open, Plainly([])), Act(Identify(0), Plainly([])), Act(Identify(1), Plainly([])),
     Act(Identify(2),
         Reply(NoError, [], None, [],
               Some(Identity(DIGEST, false, "bench_single_svd48_motor", "bench", [BENCH])))),
     Act(StopAll(false), Plainly(["OK STOP ALL"])),
     StepAct(py, 0, Plainly([])), StepAct(py, 1, GateAnswer(py, 0)), StepAct(py, 2, GateAnswer(py, 1)),
     StepAct(py, 3, GateAnswer(py, 2)), StepAct(py, 4, GateAnswer(py, 3)),
     StepAct(py, 5, Reply(OtherError, [], None, [], None)),
     Act(StopAll(true), Plainly([])), Act(Close, Plainly([]))]
  }

  function WrongRun(py: Python): Evidence {
    Evidence(WrongTrace(py), true, 5, 5, true, 11, OtherError, AbortedForSafety)
  }

  lemma {:induction false} ThreeRpmStarts(py: Python)
    ensures Starts(ThreeRpm(py)) && Speed(ThreeRpm(py)) == 3
  {
    hide Accepts, Steps;
    EndpointIdIsName();
    EveryNameIsAdmitted("endpoint_id");
  }

  lemma {:induction false} BenchIsSelected(py: Python)
    ensures Identified(ThreeRpm(py), WrongTrace(py)[3].reply)
  {
    hide Upper, Steps, Shouted, TextsOf, Lower;
    VelocityIsShouted();
    ShoutedText("VELOCITY_RPM");
    ShoutedText("VELOCITY_OBSERVATION");
    ShoutedText("STOPPABLE");
    assert Candidates(SELECTOR, []) == [] && [BENCH][..0] == [];
    assert Candidates(SELECTOR, [BENCH]) == [BENCH];
  }

  // ---------------------------------------------------------------------------------- the gates

  lemma {:induction false} BracelessText(py: Python, s: string)
    requires Braceless(s)
    ensures Rendered(py, ContextOf(ThreeRpm(py)), s) == Some(s)
  {
    hide Rendered, Steps;
    BracelessRenders(py, ContextOf(ThreeRpm(py)), s, "");
    NothingRenders(py, ContextOf(ThreeRpm(py)));
    assert s + "" == s;
  }

  lemma {:induction false} ObserveText(py: Python)
    ensures Rendered(py, ContextOf(ThreeRpm(py)), OBSERVE).Some?
  {
    hide Rendered, Filled, HoleOf, Identifier, Steps;
    var context := ContextOf(ThreeRpm(py));
    CommandTexts();
    EndpointIdIsName();
    IdentifierIsName("endpoint_id");
    PlainName(py, context, "endpoint_id");
    VerbsAreShouted(GetObservation);
    ShoutedText(NameOf(GetObservation));
    NothingRenders(py, context);
    HoleRenders(py, context, "endpoint_id", "");
    BracelessRenders(py, context, " ", HoleOf("endpoint_id") + "");
    BracelessRenders(py, context, NameOf(GetObservation), " " + (HoleOf("endpoint_id") + ""));
  }

  lemma {:induction false} PrefixesAreBraceless()
    ensures Braceless("DATA COMPOSITION") && Braceless("DATA PLATFORM") && Braceless("DATA SAFETY")
    ensures Braceless(OBSERVED)
  {
  }

  lemma {:induction false} QueryTexts(py: Python, id: string, command: string, prefix: string, a: Assertion)
    requires Braceless(command) && Braceless(prefix)
    ensures TextsOf(ThreeRpm(py), Gate(id, command, prefix, a)) == Some((command, prefix))
  {
    hide Rendered, Steps;
    BracelessText(py, command);
    BracelessText(py, prefix);
  }

  lemma {:induction false} ObserveTexts(py: Python, id: string, a: Assertion)
    ensures var texts := TextsOf(ThreeRpm(py), Gate(id, OBSERVE, OBSERVED, a));
            texts.Some? && VerbOf(texts.value.0) == Some(GetObservation)
  {
    hide Rendered, Steps, VerbOf, TextsFit, Braceless;
    PrefixesAreBraceless();
    BracelessText(py, OBSERVED);
    ObserveText(py);
    PlainObserve(VelocityProgram("endpoint_id"));
    VerbSurvives(py, ContextOf(ThreeRpm(py)), OBSERVE);
  }

  /** The k-th gate of the program. */
  function GateStep(k: nat): Step
    requires k < 4
  {
    match k
    case 0 => Gate("composition-ready", "COMPOSITION_STATUS", "DATA COMPOSITION",
                   Assertion("COMPOSITION", "RUNTIME_READY", Value(1.0), 0.0, COMPOSED_FIELDS))
    case 1 => Gate("platform-idle", "PLATFORM_STATUS", "DATA PLATFORM",
                   Assertion("PLATFORM", "MOTION_ACTIVE", Value(0.0), 0.0, PARKED_FIELDS))
    case 2 => Gate("safety-running", "SAFETY_STATUS", "DATA SAFETY",
                   Assertion("SAFETY", "MOTOR_FAULT", Value(0.0), 0.0, SUPERVISED_FIELDS))
    case _ => Gate("observe-before", OBSERVE, OBSERVED, Observation(Value(0.0)))
  }

  lemma {:induction false} GateIsStep(k: nat)
    requires k < 4
    ensures |Steps("endpoint_id")| == 11 && Steps("endpoint_id")[k + 1] == GateStep(k)
  {
    hide SetCommand, SetAnswer, Observation, Gate;
  }

  lemma {:induction false} QueriesAreNoSettings()
    ensures VerbOf("COMPOSITION_STATUS") == Some(CompositionStatus) && Braceless("COMPOSITION_STATUS")
    ensures VerbOf("PLATFORM_STATUS") == Some(PlatformStatus) && Braceless("PLATFORM_STATUS")
    ensures VerbOf("SAFETY_STATUS") == Some(SafetyStatus) && Braceless("SAFETY_STATUS")
  {
    hide VerbOf, Shouted, TextsFit, Braceless;
    PrefixesAreBraceless();
    var m := VelocityProgram("endpoint_id");
    PlainQuery(m, CompositionStatus, "DATA COMPOSITION");
    PlainQuery(m, PlatformStatus, "DATA PLATFORM");
    PlainQuery(m, SafetyStatus, "DATA SAFETY");
    VerbsAreShouted(CompositionStatus);
    VerbsAreShouted(PlatformStatus);
    VerbsAreShouted(SafetyStatus);
    ShoutedText("COMPOSITION_STATUS");
    ShoutedText("PLATFORM_STATUS");
    ShoutedText("SAFETY_STATUS");
  }

  lemma {:induction false} GateTexts(py: Python, k: nat)
    requires k < 4
    ensures TextsOf(ThreeRpm(py), GateStep(k)).Some?
    ensures var verb := VerbOf(TextsOf(ThreeRpm(py), GateStep(k)).value.0);
            verb != Some(SetSpeed) && verb != Some(StopEndpoint)
  {
    hide TextsOf, VerbOf, Braceless, Gate, ThreeRpm;
    PrefixesAreBraceless();
    QueriesAreNoSettings();
    match k {
      case 0 => QueryTexts(py, "composition-ready", "COMPOSITION_STATUS", "DATA COMPOSITION",
                           Assertion("COMPOSITION", "RUNTIME_READY", Value(1.0), 0.0, COMPOSED_FIELDS));
      case 1 => QueryTexts(py, "platform-idle", "PLATFORM_STATUS", "DATA PLATFORM",
                           Assertion("PLATFORM", "MOTION_ACTIVE", Value(0.0), 0.0, PARKED_FIELDS));
      case 2 => QueryTexts(py, "safety-running", "SAFETY_STATUS", "DATA SAFETY",
                           Assertion("SAFETY", "MOTOR_FAULT", Value(0.0), 0.0, SUPERVISED_FIELDS));
      case _ => ObserveTexts(py, "observe-before", Observation(Value(0.0)));
    }
  }

  // ------------------------------------------------------------------------------- their answers

  /** What the fields ask for, the record has. */
  lemma {:induction false} FieldsAreCarried(record: map<string, string>, fields: seq<Field>)
    requires forall i | 0 <= i < |fields| ::
               Shouted(fields[i].key) && fields[i].key in record && record[fields[i].key] == fields[i].value
    ensures Carries(record, fields)
  {
    hide Upper, Shouted;
    forall i | 0 <= i < |fields|
      ensures Upper(fields[i].key) in record && record[Upper(fields[i].key)] == fields[i].value
    {
      ShoutedText(fields[i].key);
    }
  }

  function FieldsOf(k: nat): seq<Field> {
    if k == 0 then COMPOSED_FIELDS else if k == 1 then PARKED_FIELDS
    else if k == 2 then SUPERVISED_FIELDS else HEALTHY_FIELDS
  }

  lemma {:induction false} AnswersCarry(py: Python, k: nat)
    requires k < 4
    ensures Carries(GateAnswer(py, k).records[0], FieldsOf(k))
  {
    hide Carries, Shouted, TextsOf, Steps, ThreeRpm;
    KeysAreShouted(k);
    FieldsAreCarried(GateAnswer(py, k).records[0], FieldsOf(k));
  }

  lemma {:induction false} KeysAreShouted(k: nat)
    requires k < 4
    ensures forall i | 0 <= i < |FieldsOf(k)| :: Shouted(FieldsOf(k)[i].key)
  {
  }

  lemma {:induction false} BenchIsTarget(py: Python)
    ensures ThreeRpm(py).manifest.target == TARGET && ThreeRpm(py).manifest.cleanup == CLEANUP
    ensures ThreeRpm(py).manifest.steps == Steps("endpoint_id") && ThreeRpm(py).manifest.motionVariable == "endpoint_id"
  {
    hide Steps;
  }

  lemma {:induction false} AssertionHolds(py: Python, k: nat)
    requires k < 4
    ensures GateStep(k).Send? && GateStep(k).assertion.Some?
    ensures AssertionError(ThreeRpm(py), GateStep(k).assertion.value, GateAnswer(py, k)) == NoError
  {
    hide TextsOf, Carries, Steps, Upper, ThreeRpm;
    BenchIsTarget(py);
    AnswersCarry(py, k);
    SmallRecordsAreOthers();
  }

  /** Only the record of the endpoint has to name it. */
  lemma {:induction false} SmallRecordsAreOthers()
    ensures Upper("COMPOSITION") != "ENDPOINT_OBSERVATION" && Upper("PLATFORM") != "ENDPOINT_OBSERVATION"
    ensures Upper("SAFETY") != "ENDPOINT_OBSERVATION"
  {
    hide Upper;
    UpperOfCapitals("COMPOSITION");
    UpperOfCapitals("PLATFORM");
    UpperOfCapitals("SAFETY");
  }

  /** An answer whose only line is the expected one. */
  lemma {:induction false} EchoMatches(command: string, expected: string)
    requires VerbOf(command) != Some(SetSpeed) && VerbOf(command) != Some(StopEndpoint)
    ensures Matches(command, expected, [expected])
  {
    hide VerbOf;
    assert expected <= [expected][0];
  }

  lemma {:induction false} GatePasses(py: Python, k: nat)
    requires k < 4
    ensures ReplyError(ThreeRpm(py), Steps("endpoint_id")[k + 1], GateAnswer(py, k)) == NoError
  {
    hide TextsOf, VerbOf, AssertionError, Steps, GateStep, ThreeRpm, Matches;
    GateIsStep(k);
    GateTexts(py, k);
    AssertionHolds(py, k);
    var texts := TextsOf(ThreeRpm(py), GateStep(k)).value;
    EchoMatches(texts.0, texts.1);
  }

  // ------------------------------------------------------------------------------------ the run

  lemma {:induction false} SpeedIsRendered(py: Python)
    ensures TextsOf(ThreeRpm(py), Steps("endpoint_id")[5]).Some?
    ensures Words(TextsOf(ThreeRpm(py), Steps("endpoint_id")[5]).value.0) == ["SET_ENDPOINT_SPEED", "1", "1"]
  {
    hide TextsOf, Words, Steps, Filled, Accepts, ThreeRpm, VelocityProgram;
    ThreeRpmIsProgram(py);
    BenchIsTarget(py);
    EndpointIdIsName();
    EveryNameIsAdmitted("endpoint_id");
    OneMotion("endpoint_id");
    StepCount("endpoint_id");
    MotionVariableIsName(ThreeRpm(py).manifest);
    EndpointFills(ThreeRpm(py));
    SpeedTexts(ThreeRpm(py), 5, "1");
  }

  lemma {:induction false} ThreeRpmIsProgram(py: Python)
    ensures ThreeRpm(py).manifest == VelocityProgram("endpoint_id")
  {
    hide VelocityProgram;
  }

  lemma {:induction false} PassedSteps(py: Python)
    ensures StepsPassed(ThreeRpm(py), WrongTrace(py), 5, 5)
  {
    hide ReplyError, ThreeRpm, Steps, GateAnswer, RequestOf;
    BenchIsTarget(py);
    StepCount("endpoint_id");
    FirstStepSleeps(py);
    GatePasses(py, 0);
    GatePasses(py, 1);
    GatePasses(py, 2);
    GatePasses(py, 3);
  }

  lemma {:induction false} FirstStepSleeps(py: Python)
    ensures ReplyError(ThreeRpm(py), Steps("endpoint_id")[0], Plainly([])) == NoError
  {
    hide SetCommand, SetAnswer, Observation, Gate, ThreeRpm;
  }

  lemma {:induction false} SpeedIsAttempted(py: Python)
    ensures var m := ThreeRpm(py).manifest;
            |m.steps| == 11 && AttemptsMotion(m, 6) && m.steps == Steps("endpoint_id")
  {
    hide ThreeRpm, Steps, IsMotion;
    BenchIsTarget(py);
    StepCount("endpoint_id");
    OneMotion("endpoint_id");
    assert IsMotion(Steps("endpoint_id")[5]);
  }

  lemma {:induction false} SpeedIsNoGate()
    ensures |Steps("endpoint_id")| == 11 && Steps("endpoint_id")[5].Send? && !Steps("endpoint_id")[5].safetyGate
  {
    hide SetCommand, SetAnswer, Observation, Gate;
  }

  lemma {:induction false} WrongRunIsRecorded(py: Python, signal: Signal)
    requires Quiet(signal)
    ensures Recorded(ThreeRpm(py), signal, WrongRun(py))
  {
    hide StepsPassed, TextsOf, Identified, ThreeRpm, Steps, AttemptsMotion, Words, GateAnswer, VerbOf;
    BenchIsSelected(py);
    PassedSteps(py);
    SpeedIsRendered(py);
    SpeedIsAttempted(py);
    SpeedIsNoGate();
  }

  lemma {:induction false} SendsSpeed(py: Python)
    ensures SetsSpeed(RequestOf(ThreeRpm(py), 5)) && RequestOf(ThreeRpm(py), 5).SendStep?
    ensures RequestOf(ThreeRpm(py), 5).command == TextsOf(ThreeRpm(py), Steps("endpoint_id")[5]).value.0
  {
    hide TextsOf, VerbOf, Steps, ThreeRpm, Accepts, VelocityProgram;
    ThreeRpmIsProgram(py);
    BenchIsTarget(py);
    EndpointIdIsName();
    EveryNameIsAdmitted("endpoint_id");
    StepCount("endpoint_id");
    OneMotion("endpoint_id");
    SpeedIsRendered(py);
    SendsItsVerb(ThreeRpm(py), 5);
  }

  /** Nothing about this run is out of order, and yet the one speed it sends is not the one that was
      asked for, checked and found within all bounds. */
  lemma {:induction false} WrongSpeedIsSent(py: Python, signal: Signal) returns (p: nat)
    requires Quiet(signal)
    ensures IsRun(ThreeRpm(py), signal, WrongRun(py)) && Speed(ThreeRpm(py)) == 3
    ensures p < |WrongRun(py).trace| && SetsSpeed(WrongRun(py).trace[p].request)
    ensures Words(WrongRun(py).trace[p].request.command) == ["SET_ENDPOINT_SPEED", "1", "1"]
  {
    hide Starts, Recorded, TextsOf, ThreeRpm, Steps, Words, GateAnswer, SetsSpeed, RequestOf;
    p := 10;
    ThreeRpmStarts(py);
    WrongRunIsRecorded(py, signal);
    SpeedIsRendered(py);
    SendsSpeed(py);
  }
}
