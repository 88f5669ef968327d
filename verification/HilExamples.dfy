/** The velocity program of the repository, with any name for its speed: it is admitted, whatever that
    name is. */
module HilExamples {
  import opened HilText
  import opened HilManifest
  import opened HilRunner
  import opened HilRuns
  import opened Prelude

  // ------------------------------------------------------------------------------- the program

  const HEALTHY_FIELDS: seq<Field> := [
    Field("TYPE", "VELOCITY_RPM"), Field("VALID", "1"), Field("SOURCE", "DEVICE_FEEDBACK"),
    Field("ONLINE", "1"), Field("STALE", "0"), Field("HEALTH", "HEALTHY")]

  const COMPOSED_FIELDS: seq<Field> := [Field("MODE", "ACTIVE"), Field("OUTPUTS_INITIALIZED", "1")]

  const PARKED_FIELDS: seq<Field> := [
    Field("STATE", "SAFE_IDLE"), Field("FAULTED", "0"), Field("TRACE", "0"), Field("STREAM", "0")]

  const SUPERVISED_FIELDS: seq<Field> := [Field("TASK", "RUNNING"), Field("RC_LOSS", "0")]

  const OBSERVE: string := "GET_ENDPOINT_OBSERVATION {endpoint_id}"
  const OBSERVED: string := "DATA ENDPOINT_OBSERVATION"
  const HALT: string := "STOP_ENDPOINT {endpoint_id}"
  const HALTED: string := "OK STOP_ENDPOINT ID:{endpoint_id}"

  function Observation(expected: Expected): Assertion {
    Assertion("ENDPOINT_OBSERVATION", "RPM", expected, 0.5, HEALTHY_FIELDS)
  }

  function Gate(id: string, command: string, prefix: string, assertion: Assertion): Step {
    Send(id, command, prefix, false, Some(assertion), None, true, false)
  }

  function SetCommand(name: string): string {
    "SET_ENDPOINT_SPEED" + (" " + (HoleOf("endpoint_id") + (" " + (HoleOf(name) + ""))))
  }

  function SetAnswer(name: string): string {
    SPEED_ACKNOWLEDGED + (HoleOf("endpoint_id") + (" RPM_TARGET:" + HoleOf(name)))
  }

  function Steps(name: string): seq<Step> {
    [Sleep("pre-stop-settle", 0.5, false),
     Gate("composition-ready", "COMPOSITION_STATUS", "DATA COMPOSITION",
          Assertion("COMPOSITION", "RUNTIME_READY", Value(1.0), 0.0, COMPOSED_FIELDS)),
     Gate("platform-idle", "PLATFORM_STATUS", "DATA PLATFORM",
          Assertion("PLATFORM", "MOTION_ACTIVE", Value(0.0), 0.0, PARKED_FIELDS)),
     Gate("safety-running", "SAFETY_STATUS", "DATA SAFETY",
          Assertion("SAFETY", "MOTOR_FAULT", Value(0.0), 0.0, SUPERVISED_FIELDS)),
     Gate("observe-before", OBSERVE, OBSERVED, Observation(Value(0.0))),
     Send("command-velocity", SetCommand(name), SetAnswer(name), true, None, None, false, false),
     Sleep("settle", 0.5, false),
     Send("observe-after", OBSERVE, OBSERVED, false, Some(Observation(Variable(name))), None, false, false),
     Send("stop-endpoint", HALT, HALTED, false, None, None, false, false),
     Sleep("stop-settle", 0.5, false),
     Send("verify-stopped", OBSERVE, OBSERVED, false, Some(Observation(Value(0.0))), None, false, true)]
  }

  const DESCRIPTION: string := "L4" + " velocity exercise for exactly one available capability endpoint."

  const LIMITS: seq<string> := [
    "Controller" + "-derived feedback is not an independent E3 sensor.",
    "No" + " PCB, motor, stop-latency, current, thermal, endurance, or chassis gate is implied."]

  const GATES: seq<string> := ["git_sha", "git_dirty", "profile", "board"]
  const CONFIRMATIONS: seq<string> := ["motion_authorized", "wheels_unloaded", "power_cutoff_ready"]
  const TARGET: Target := Target("1", "bench_motor", "VELOCITY_RPM")

  const CLEANUP: Cleanup := Cleanup(
    true, true, true, 0.5, "ENDPOINT_OBSERVATION", "RPM", 0.0, 0.5, HEALTHY_FIELDS)

  const SELECTOR: Selector := Selector(
    ["VELOCITY_RPM", "VELOCITY_OBSERVATION", "STOPPABLE"], 1, 1, "DEVELOPMENT")

  const SPEED: Definition := Definition(IntegerKind, true, true, Some(-5), Some(5), Some(1), false)

  function VelocityProgram(name: string): Manifest {
    Manifest(
      1, "single-endpoint-velocity-l4", DESCRIPTION, "L4", "bench_single_svd48_motor", "E2", LIMITS, GATES,
      true, CONFIRMATIONS, name, map[name := SPEED], TARGET, true, true, 5.0, CLEANUP, Some(SELECTOR), Steps(name))
  }

  // ------------------------------------------------------------------------------------- its texts

  /** Capital letters, with underscores between them. */
  predicate Shouted(s: string) {
    s != "" && Letter(s[0]) && forall i | 0 <= i < |s| :: 'A' <= s[i] <= 'Z' || s[i] == '_'
  }

  lemma {:induction false} ShoutedText(s: string)
    requires Shouted(s)
    ensures Solid(s) && Braceless(s) && Identifier(s) && Upper(s) == s
  {
    UpperOfCapitals(s);
  }

  lemma {:induction false} QueriesAreShouted()
    ensures Shouted("PING") && Shouted("COMPOSITION_STATUS") && Shouted("PLATFORM_STATUS") && Shouted("SAFETY_STATUS")
  {
  }

  lemma {:induction false} ActionsAreShouted()
    ensures Shouted("GET_ENDPOINT_OBSERVATION") && Shouted("SET_ENDPOINT_SPEED") && Shouted("STOP_ENDPOINT")
  {
  }

  lemma {:induction false} VerbsAreShouted(verb: Verb)
    ensures Shouted(NameOf(verb))
  {
    hide Shouted;
    QueriesAreShouted();
    ActionsAreShouted();
  }

  lemma {:induction false} NameIsVerb(verb: Verb)
    ensures VerbNamed(NameOf(verb)) == Some(verb)
  {
    assert "SET_ENDPOINT_SPEED"[0] != "COMPOSITION_STATUS"[0];
    assert "STOP_ENDPOINT"[1] != "SAFETY_STATUS"[1];
  }

  /** A command that starts with a verb. */
  lemma {:induction false} StartsWithVerb(verb: Verb, rest: string)
    requires rest == "" || Blank(rest[0])
    ensures Words(NameOf(verb) + rest) == [NameOf(verb)] + Words(rest)
    ensures VerbOf(NameOf(verb) + rest) == Some(verb)
  {
    hide NameOf, VerbNamed, Words;
    VerbsAreShouted(verb);
    ShoutedText(NameOf(verb));
    WordInFront(NameOf(verb), rest);
    NameIsVerb(verb);
  }

  lemma {:induction false} NoWords()
    ensures Words("") == []
  {
  }

  lemma {:induction false} HoleIsWord(name: string)
    requires Identifier(name)
    ensures Solid(HoleOf(name))
  {
    var s := HoleOf(name);
    forall i | 0 <= i < |s| ensures !Blank(s[i]) {
      if 0 < i < |s| - 1 {
        assert s[i] == name[i - 1] && name[i - 1] in name;
      }
    }
  }

  lemma {:induction false} HoleInFront(name: string, rest: string)
    requires Identifier(name) && (rest == "" || Blank(rest[0]))
    ensures Words(" " + (HoleOf(name) + rest)) == [HoleOf(name)] + Words(rest)
  {
    hide Words, Identifier, HoleOf;
    HoleIsWord(name);
    WordInFront(HoleOf(name), rest);
    BlanksInFront(" ", HoleOf(name) + rest);
  }

  lemma {:induction false} EndpointIdIsName()
    ensures Identifier("endpoint_id")
  {
  }

  // ------------------------------------------------------------------------------ its templates

  lemma {:induction false} BracelessFits(s: string, rest: string, names: set<string>)
    requires Braceless(s)
    ensures TemplateFits(s + rest, names) <==> TemplateFits(rest, names)
  {
    if s == "" {
      assert s + rest == rest;
    } else {
      BracelessFits(s[1..], rest, names);
      assert (s + rest)[1..] == s[1..] + rest;
    }
  }

  lemma {:induction false} HoleFits(name: string, rest: string, names: set<string>)
    requires Identifier(name) && name in names
    ensures TemplateFits(HoleOf(name) + rest, names) <==> TemplateFits(rest, names)
  {
    IdentifierIsName(name);
    HolePieces(name, rest);
  }

  lemma {:induction false} EmptyFits(names: set<string>)
    ensures TemplateFits("", names)
  {
  }

  // ------------------------------------------------------------------------------ its commands

  lemma {:induction false} PlainQuery(m: Manifest, verb: Verb, prefix: string)
    requires verb == CompositionStatus || verb == PlatformStatus || verb == SafetyStatus
    requires prefix != "" && Braceless(prefix)
    ensures TextsFit(m, NameOf(verb), prefix) && VerbOf(NameOf(verb)) == Some(verb)
  {
    hide NameOf, Words, VerbOf, TemplateFits, Shouted;
    assert NameOf(verb) + "" == NameOf(verb) && prefix + "" == prefix;
    VerbsAreShouted(verb);
    ShoutedText(NameOf(verb));
    NoLineBreaks(NameOf(verb));
    StartsWithVerb(verb, "");
    BracelessFits(NameOf(verb), "", AllowedNames(m));
    BracelessFits(prefix, "", AllowedNames(m));
    EmptyFits(AllowedNames(m));
  }

  lemma {:induction false} NoLineBreaks(s: string)
    requires Shouted(s)
    ensures '\n' !in s && '\r' !in s
  {
  }

  /** A command to the endpoint of the program, and nothing else in it. */
  lemma {:induction false} EndpointCommand(m: Manifest, verb: Verb)
    ensures var command := NameOf(verb) + (" " + (HoleOf("endpoint_id") + ""));
            && Words(command) == [NameOf(verb), HoleOf("endpoint_id")] && VerbOf(command) == Some(verb)
            && TemplateFits(command, AllowedNames(m)) && '\n' !in command && '\r' !in command
  {
    hide NameOf, Words, VerbOf, TemplateFits, Shouted, Identifier;
    EndpointIdIsName();
    StartsWithVerb(verb, " " + (HoleOf("endpoint_id") + ""));
    HoleInFront("endpoint_id", "");
    NoWords();
    VerbsAreShouted(verb);
    ShoutedText(NameOf(verb));
    NoLineBreaks(NameOf(verb));
    BracelessFits(NameOf(verb), " " + (HoleOf("endpoint_id") + ""), AllowedNames(m));
    BracelessFits(" ", HoleOf("endpoint_id") + "", AllowedNames(m));
    HoleFits("endpoint_id", "", AllowedNames(m));
    EmptyFits(AllowedNames(m));
  }

  lemma {:induction false} EndpointHole()
    ensures HoleOf("endpoint_id") == "{endpoint_id}"
  {
  }

  lemma {:induction false} CommandTexts()
    ensures OBSERVE == NameOf(GetObservation) + (" " + (HoleOf("endpoint_id") + ""))
    ensures HALT == NameOf(StopEndpoint) + (" " + (HoleOf("endpoint_id") + ""))
  {
  }

  lemma {:induction false} AnswerTexts()
    ensures HALTED == "OK STOP_ENDPOINT ID:" + (HoleOf("endpoint_id") + "")
    ensures OBSERVED + "" == OBSERVED && Braceless(OBSERVED) && OBSERVED != ""
  {
  }

  lemma {:induction false} PlainObserve(m: Manifest)
    ensures TextsFit(m, OBSERVE, OBSERVED) && VerbOf(OBSERVE) == Some(GetObservation)
  {
    hide Words, VerbOf, TemplateFits, HoleOf, Braceless;
    EndpointHole();
    CommandTexts();
    AnswerTexts();
    EndpointCommand(m, GetObservation);
    BracelessFits(OBSERVED, "", AllowedNames(m));
    EmptyFits(AllowedNames(m));
  }

  lemma {:induction false} PlainHalt(m: Manifest)
    ensures TextsFit(m, HALT, HALTED) && VerbOf(HALT) == Some(StopEndpoint)
  {
    hide Words, VerbOf, TemplateFits, HoleOf, Identifier;
    EndpointHole();
    EndpointIdIsName();
    CommandTexts();
    AnswerTexts();
    EndpointCommand(m, StopEndpoint);
    BracelessFits("OK STOP_ENDPOINT ID:", HoleOf("endpoint_id") + "", AllowedNames(m));
    HoleFits("endpoint_id", "", AllowedNames(m));
    EmptyFits(AllowedNames(m));
  }

  lemma {:induction false} SetWords(name: string)
    requires Identifier(name)
    ensures Words(SetCommand(name)) == ["SET_ENDPOINT_SPEED", "{endpoint_id}", HoleOf(name)]
    ensures VerbOf(SetCommand(name)) == Some(SetSpeed)
  {
    hide Words, VerbOf, HoleOf, Identifier;
    EndpointHole();
    EndpointIdIsName();
    StartsWithVerb(SetSpeed, " " + (HoleOf("endpoint_id") + (" " + (HoleOf(name) + ""))));
    HoleInFront("endpoint_id", " " + (HoleOf(name) + ""));
    HoleInFront(name, "");
    NoWords();
  }

  lemma {:induction false} SetFits(name: string, names: set<string>)
    requires Identifier(name) && name in names && "endpoint_id" in names
    ensures TemplateFits(SetCommand(name), names) && TemplateFits(SetAnswer(name), names)
  {
    hide TemplateFits, HoleOf, Identifier;
    EndpointIdIsName();
    EmptyFits(names);
    HoleFits(name, "", names);
    BracelessFits(" ", HoleOf(name) + "", names);
    HoleFits("endpoint_id", " " + (HoleOf(name) + ""), names);
    BracelessFits(" ", HoleOf("endpoint_id") + (" " + (HoleOf(name) + "")), names);
    BracelessFits("SET_ENDPOINT_SPEED", " " + (HoleOf("endpoint_id") + (" " + (HoleOf(name) + ""))), names);
    assert HoleOf(name) + "" == HoleOf(name);
    BracelessFits(" RPM_TARGET:", HoleOf(name), names);
    HoleFits("endpoint_id", " RPM_TARGET:" + HoleOf(name), names);
    BracelessFits(SPEED_ACKNOWLEDGED, HoleOf("endpoint_id") + (" RPM_TARGET:" + HoleOf(name)), names);
  }

  lemma {:induction false} SetIsOneLine(name: string)
    requires Identifier(name)
    ensures '\n' !in SetCommand(name) && '\r' !in SetCommand(name)
  {
  }

  lemma {:induction false} PlainSet(m: Manifest)
    requires Identifier(m.motionVariable) && m.motionVariable in m.variables
    ensures TextsFit(m, SetCommand(m.motionVariable), SetAnswer(m.motionVariable))
    ensures VerbOf(SetCommand(m.motionVariable)) == Some(SetSpeed)
  {
    hide Words, VerbOf, TemplateFits, HoleOf, Identifier, SetCommand;
    SetWords(m.motionVariable);
    SetFits(m.motionVariable, AllowedNames(m));
    SetIsOneLine(m.motionVariable);
  }

  // -------------------------------------------------------------------------------- its fields

  lemma {:induction false} OneMoreField(fields: seq<Field>, field: Field)
    requires Shouted(field.key)
    ensures Normalized(fields + [field]) == Normalized(fields)[field.key := field.value]
  {
    ShoutedText(field.key);
    assert (fields + [field])[..|fields|] == fields;
  }

  lemma {:induction false} ComposedIsNormal()
    ensures Normalized(COMPOSED_FIELDS) == COMPOSED && FieldsFit(COMPOSED_FIELDS)
  {
    hide Upper;
    var f := COMPOSED_FIELDS;
    assert f == [] + [f[0]] + [f[1]];
    OneMoreField([], f[0]);
    OneMoreField([] + [f[0]], f[1]);
  }

  lemma {:induction false} SupervisedIsNormal()
    ensures Normalized(SUPERVISED_FIELDS) == SUPERVISED && FieldsFit(SUPERVISED_FIELDS)
  {
    hide Upper;
    var f := SUPERVISED_FIELDS;
    assert f == [] + [f[0]] + [f[1]];
    OneMoreField([], f[0]);
    OneMoreField([] + [f[0]], f[1]);
  }

  lemma {:induction false} ParkedIsNormal()
    ensures Normalized(PARKED_FIELDS) == PARKED && FieldsFit(PARKED_FIELDS)
  {
    hide Upper;
    var f := PARKED_FIELDS;
    assert f == [] + [f[0]] + [f[1]] + [f[2]] + [f[3]];
    OneMoreField([], f[0]);
    OneMoreField([] + [f[0]], f[1]);
    OneMoreField([] + [f[0]] + [f[1]], f[2]);
    OneMoreField([] + [f[0]] + [f[1]] + [f[2]], f[3]);
  }

  lemma {:induction false} HealthyIsNormal()
    ensures Normalized(HEALTHY_FIELDS) == HEALTHY && FieldsFit(HEALTHY_FIELDS)
  {
    hide Upper;
    var f := HEALTHY_FIELDS;
    assert f == [] + [f[0]] + [f[1]] + [f[2]] + [f[3]] + [f[4]] + [f[5]];
    OneMoreField([], f[0]);
    OneMoreField([] + [f[0]], f[1]);
    OneMoreField([] + [f[0]] + [f[1]], f[2]);
    OneMoreField([] + [f[0]] + [f[1]] + [f[2]], f[3]);
    OneMoreField([] + [f[0]] + [f[1]] + [f[2]] + [f[3]], f[4]);
    OneMoreField([] + [f[0]] + [f[1]] + [f[2]] + [f[3]] + [f[4]], f[5]);
  }

  // ------------------------------------------------------------------------------- its sections

  /** A text that begins with a word is more than white space. */
  lemma {:induction false} TextInFront(word: string, rest: string)
    requires word != "" && !Blank(word[0])
    ensures HasText(word + rest)
  {
    assert (word + rest)[0] == word[0];
  }

  lemma {:induction false} TextsAreFine()
    ensures !Blank("L4"[0]) && !Blank("Controller"[0]) && !Blank("No"[0]) && !Blank("1"[0]) && !Blank("bench_motor"[0])
    ensures Identifier("single-endpoint-velocity-l4") && Identifier("bench_single_svd48_motor")
  {
  }

  lemma {:induction false} GatesAreAll()
    ensures (set gate | gate in GATES) == REQUIRED_GATES && |GATES| == 4
  {
    assert GATES[0] in GATES && GATES[1] in GATES && GATES[2] in GATES && GATES[3] in GATES;
  }

  lemma {:induction false} ConfirmationsAreAll()
    ensures (set c | c in CONFIRMATIONS) == REQUIRED_CONFIRMATIONS
  {
    assert CONFIRMATIONS[0] in CONFIRMATIONS && CONFIRMATIONS[1] in CONFIRMATIONS && CONFIRMATIONS[2] in CONFIRMATIONS;
  }

  lemma {:induction false} LimitsHaveText()
    ensures HasText(DESCRIPTION) && LIMITS != [] && forall i | 0 <= i < |LIMITS| :: HasText(LIMITS[i])
  {
    hide HasText, Blank;
    TextsAreFine();
    TextInFront("L4", " velocity exercise for exactly one available capability endpoint.");
    TextInFront("Controller", "-derived feedback is not an independent E3 sensor.");
    TextInFront("No", " PCB, motor, stop-latency, current, thermal, endurance, or chassis gate is implied.");
  }

  lemma {:induction false} IdentityIsFine(name: string)
    ensures IdentityFits(VelocityProgram(name))
  {
    hide Identifier, HasText, Steps;
    TextsAreFine();
    LimitsHaveText();
    GatesAreAll();
  }

  lemma {:induction false} MotionIsFine(name: string)
    requires Identifier(name)
    ensures MotionFits(VelocityProgram(name))
  {
    hide Identifier, Steps;
    ConfirmationsAreAll();
  }

  lemma {:induction false} VelocityIsShouted()
    ensures Shouted("VELOCITY_RPM") && Shouted("VELOCITY_OBSERVATION") && Shouted("STOPPABLE")
    ensures Shouted("ENDPOINT_OBSERVATION") && Shouted("RPM")
  {
  }

  lemma {:induction false} SolidHasText(s: string)
    requires Solid(s)
    ensures HasText(s)
  {
    assert !Blank(s[0]);
  }

  lemma {:induction false} TargetIsFine()
    ensures TargetFits(TARGET)
  {
    hide Upper, Shouted, Identifier, Blank, HasText;
    VelocityIsShouted();
    ShoutedText("VELOCITY_RPM");
    TextsAreFine();
    TextInFront("1", "");
    TextInFront("bench_motor", "");
    SolidHasText("VELOCITY_RPM");
    assert "1" + "" == "1" && "bench_motor" + "" == "bench_motor";
  }

  lemma {:induction false} SelectorIsFine()
    ensures SelectorFits(SELECTOR, TARGET)
  {
    hide Upper, Shouted, Identifier, Solid;
    VelocityIsShouted();
    ShoutedText("VELOCITY_RPM");
    ShoutedText("VELOCITY_OBSERVATION");
    ShoutedText("STOPPABLE");
    assert Upper(SELECTOR.capabilities[0]) == Upper(TARGET.capability);
  }

  lemma {:induction false} CleanupIsFine()
    ensures CleanupFits(CLEANUP)
  {
    hide Upper, Shouted, Identifier, Normalized, FieldsFit;
    VelocityIsShouted();
    ShoutedText("ENDPOINT_OBSERVATION");
    ShoutedText("RPM");
    HealthyIsNormal();
  }

  lemma {:induction false} StepCount(name: string)
    ensures |Steps(name)| == 11
  {
  }

  lemma {:induction false} HeaderIsFine(name: string)
    requires Identifier(name)
    ensures HeaderFits(VelocityProgram(name))
  {
    hide IdentityFits, MotionFits, TargetFits, SelectorFits, CleanupFits, Identifier, Steps;
    assert |Steps(name)| == 11 by { StepCount(name); }
    IdentityIsFine(name);
    MotionIsFine(name);
    TargetIsFine();
    SelectorIsFine();
    CleanupIsFine();
  }

  // ---------------------------------------------------------------------------------- its steps

  lemma {:induction false} FirstIdsAreNames(name: string)
    ensures forall i | 0 <= i < 6 :: Identifier(Steps(name)[i].id)
  {
    hide SetCommand, SetAnswer;
  }

  lemma {:induction false} LastIdsAreNames(name: string)
    ensures forall i | 6 <= i < 11 :: Identifier(Steps(name)[i].id)
  {
    hide SetCommand, SetAnswer;
  }

  lemma {:induction false} IdsDiffer(name: string, i: nat, j: nat)
    requires i < j < |Steps(name)|
    ensures Steps(name)[i].id != Steps(name)[j].id
  {
  }

  lemma {:induction false} StepsArePlain(name: string)
    requires Identifier(name)
    ensures AllPlain(VelocityProgram(name))
  {
    hide Identifier, TextsFit, AssertionFits, VerbOf;
    var m := VelocityProgram(name);
    TextsOfSteps(m);
    AssertionsFit(m);
    FirstIdsAreNames(name);
    LastIdsAreNames(name);
    forall i, j | 0 <= i < j < |m.steps| ensures m.steps[i].id != m.steps[j].id {
      IdsDiffer(name, i, j);
    }
  }

  /** All texts of the program are as they should be, and their commands are what they seem. */
  lemma {:induction false} TextsOfSteps(m: Manifest)
    requires Identifier(m.motionVariable) && m.motionVariable in m.variables
    ensures TextsFit(m, "COMPOSITION_STATUS", "DATA COMPOSITION")
    ensures TextsFit(m, "PLATFORM_STATUS", "DATA PLATFORM") && TextsFit(m, "SAFETY_STATUS", "DATA SAFETY")
    ensures TextsFit(m, OBSERVE, OBSERVED) && TextsFit(m, HALT, HALTED)
    ensures TextsFit(m, SetCommand(m.motionVariable), SetAnswer(m.motionVariable))
    ensures VerbOf("COMPOSITION_STATUS") == Some(CompositionStatus)
    ensures VerbOf("PLATFORM_STATUS") == Some(PlatformStatus) && VerbOf("SAFETY_STATUS") == Some(SafetyStatus)
    ensures VerbOf(OBSERVE) == Some(GetObservation) && VerbOf(HALT) == Some(StopEndpoint)
    ensures VerbOf(SetCommand(m.motionVariable)) == Some(SetSpeed)
  {
    hide TextsFit, VerbOf, SetCommand, SetAnswer, Identifier;
    PlainQuery(m, CompositionStatus, "DATA COMPOSITION");
    PlainQuery(m, PlatformStatus, "DATA PLATFORM");
    PlainQuery(m, SafetyStatus, "DATA SAFETY");
    PlainObserve(m);
    PlainHalt(m);
    PlainSet(m);
  }

  lemma {:induction false} AssertionsFit(m: Manifest)
    requires m.motionVariable in m.variables
    ensures AssertionFits(m, Assertion("COMPOSITION", "RUNTIME_READY", Value(1.0), 0.0, COMPOSED_FIELDS))
    ensures AssertionFits(m, Assertion("PLATFORM", "MOTION_ACTIVE", Value(0.0), 0.0, PARKED_FIELDS))
    ensures AssertionFits(m, Assertion("SAFETY", "MOTOR_FAULT", Value(0.0), 0.0, SUPERVISED_FIELDS))
    ensures AssertionFits(m, Observation(Value(0.0))) && AssertionFits(m, Observation(Variable(m.motionVariable)))
  {
    hide Normalized, FieldsFit, Shouted;
    RecordsAreShouted();
    VelocityIsShouted();
    ShoutedText("ENDPOINT_OBSERVATION");
    ShoutedText("RPM");
    ComposedIsNormal();
    ParkedIsNormal();
    SupervisedIsNormal();
    HealthyIsNormal();
  }

  lemma {:induction false} RecordsAreShouted()
    ensures Identifier("COMPOSITION") && Identifier("RUNTIME_READY") && Identifier("PLATFORM")
    ensures Identifier("MOTION_ACTIVE") && Identifier("SAFETY") && Identifier("MOTOR_FAULT")
  {
  }

  // ------------------------------------------------------------------------------- it is admitted

  lemma {:induction false} GatesAreMet(name: string)
    ensures forall k | 0 <= k < 4 :: GateBefore(VelocityProgram(name), 5, k)
  {
    hide Normalized, FieldsFit;
    ComposedIsNormal();
    ParkedIsNormal();
    SupervisedIsNormal();
    HealthyIsNormal();
  }

  lemma {:induction false} ResponseIsRight(name: string)
    ensures ResponseContract(VelocityProgram(name), Observation(Variable(name)))
  {
    hide Normalized, FieldsFit, Upper, Steps, Shouted;
    HealthyIsNormal();
    VelocityIsShouted();
    ShoutedText("ENDPOINT_OBSERVATION");
    ShoutedText("RPM");
  }

  lemma {:induction false} OneMotion(name: string)
    ensures var steps := Steps(name);
            && (forall i | 0 <= i < |steps| :: IsMotion(steps[i]) <==> i == 5)
            && (forall i | 0 <= i < |steps| :: IsGate(steps[i]) <==> 1 <= i < 5)
  {
    hide SetCommand, SetAnswer, Observation;
  }

  lemma {:induction false} LastSteps(name: string)
    ensures |Steps(name)| == 11 && Steps(name)[6].Sleep?
    ensures Steps(name)[7] ==
              Send("observe-after", OBSERVE, OBSERVED, false, Some(Observation(Variable(name))), None, false, false)
    ensures Steps(name)[8] == Send("stop-endpoint", HALT, HALTED, false, None, None, false, false)
    ensures forall i | 0 <= i < 11 :: IsCleanup(Steps(name)[i]) <==> i == 10
  {
    hide SetCommand, SetAnswer, Observation;
  }

  lemma {:induction false} AnswerIsFirst(name: string)
    ensures FirstAnswer(VelocityProgram(name), 5, 7)
  {
    hide ResponseContract, VerbOf, Steps, Observation, TextsFit, IsCleanup;
    LastSteps(name);
    PlainObserve(VelocityProgram(name));
    ResponseIsRight(name);
  }

  lemma {:induction false} StandstillIsVerified(name: string)
    ensures OnlyCleanup(Steps(name), 5, |Steps(name)|, 10)
  {
    hide VerbOf, Steps, Observation, TextsFit, IsCleanup;
    LastSteps(name);
    PlainHalt(VelocityProgram(name));
    assert IsStop(Steps(name)[8]);
  }

  lemma {:induction false} IsProgram(name: string)
    requires Identifier(name)
    ensures Program(VelocityProgram(name), 5, 7, 10)
  {
    hide GateBefore, FirstAnswer, OnlyCleanup, IsMotion, IsGate, Identifier, Steps;
    StepCount(name);
    OneMotion(name);
    GatesAreMet(name);
    AnswerIsFirst(name);
    StandstillIsVerified(name);
  }

  /** The program is admitted under every name of its speed: with a dot in it, and even as the name
      that stands for the endpoint. */
  lemma {:induction false} EveryNameIsAdmitted(name: string)
    requires Identifier(name)
    ensures Accepts(VelocityProgram(name))
  {
    hide HeaderFits, AllPlain, Program, Identifier, Accepts;
    HeaderIsFine(name);
    StepsArePlain(name);
    IsProgram(name);
    ProgramIsAccepted(VelocityProgram(name), 5, 7, 10);
  }
}
