/** What a run of an admitted hardware test program is worth, whatever the gateway, the clock and the
    signals do. */
module HilRuns {
  import opened HilText
  import opened HilManifest
  import opened HilRunner
  import opened Prelude

  /** A run that was not refused. */
  ghost predicate IsRun(job: Job, signal: Signal, e: Evidence) {
    Starts(job) && Recorded(job, signal, e)
  }

  // ------------------------------------------------------------------------------ steps and speeds

  /** A step in the trace is at its own place: behind the preparation, in the order of the program, and
      in front of the clean-up. */
  lemma {:induction false} StepsAreInPlace(job: Job, signal: Signal, e: Evidence, p: nat)
    requires Recorded(job, signal, e) && p < |e.trace| && IsStep(e.trace[p].request)
    ensures e.prepared <= p <= e.prepared + e.done && p < e.last && p - e.prepared < |job.manifest.steps|
    ensures e.trace[p].request == RequestOf(job, p - e.prepared)
    ensures e.trace[p].request.SendStep? ==> TextsOf(job, job.manifest.steps[p - e.prepared]).Some?
    ensures Prepared(job, e)
  {
    hide Cleaned, Identified, Acknowledged, AttemptsMotion, TextsOf, ReplyError, Escapes, StatusOf;
    if p < e.prepared + e.done {
      var k := p - e.prepared;
      assert StepPassed(job, e.trace, e.prepared, k);
      PassedIsRendered(job, e.trace, e.prepared, k);
    }
  }

  lemma {:induction false} PassedIsRendered(job: Job, trace: seq<Act>, from: nat, k: nat)
    requires k < |job.manifest.steps| && from + k < |trace| && StepPassed(job, trace, from, k)
    ensures job.manifest.steps[k].Send? ==> TextsOf(job, job.manifest.steps[k]).Some?
  {
    hide Matches, AssertionError, TextsOf;
  }

  lemma {:induction false} NamesAreBraceless(verb: Verb, c: char)
    requires c == '{' || c == '}'
    ensures c !in NameOf(verb)
  {
  }

  /** Rendering cannot change what a command asks for. */
  lemma {:induction false} VerbSurvives(py: Python, context: Context, command: string)
    requires VerbOf(command).Some? && Rendered(py, context, command).Some?
    ensures VerbOf(Rendered(py, context, command).value) == VerbOf(command)
  {
    hide VerbNamed, Rendered, Words, Upper, NameOf;
    var word := Words(command)[0];
    forall c | c == '{' || c == '}' ensures c !in word {
      UpperKeepsBraces(word, c);
      NamesAreBraceless(VerbOf(command).value, c);
    }
    FirstWordStays(py, context, command);
  }

  /** The request that sets a speed, by the text that is sent. */
  predicate SetsSpeed(request: Request) {
    request.SendStep? && Words(request.command) != [] && Upper(Words(request.command)[0]) == "SET_ENDPOINT_SPEED"
  }

  lemma {:induction false} SpeedVerb(name: string)
    ensures VerbNamed(name) == Some(SetSpeed) <==> name == "SET_ENDPOINT_SPEED"
  {
    assert "SET_ENDPOINT_SPEED"[0] != "COMPOSITION_STATUS"[0];
  }

  lemma {:induction false} SetsSpeedIff(request: Request)
    ensures SetsSpeed(request) <==> request.SendStep? && VerbOf(request.command) == Some(SetSpeed)
  {
    hide Words, Upper, VerbNamed;
    if request.SendStep? && Words(request.command) != [] {
      SpeedVerb(Upper(Words(request.command)[0]));
    }
  }

  lemma {:induction false} StepsArePlain(m: Manifest, k: nat)
    requires Accepts(m) && k < |m.steps|
    ensures Plain(m, m.steps[k])
  {
    hide Accepts, Program, Plain;
    var motion, answer, cleanup := AcceptedIsProgram(m);
  }

  lemma {:induction false} SendsItsVerb(job: Job, k: nat)
    requires Accepts(job.manifest) && k < |job.manifest.steps|
    requires job.manifest.steps[k].Send? && TextsOf(job, job.manifest.steps[k]).Some?
    ensures SetsSpeed(RequestOf(job, k)) <==> IsMotion(job.manifest.steps[k])
  {
    hide Accepts, VerbOf, SetsSpeed, Rendered, AssertionFits, WordsFit, PrefixFits, TemplateFits, Identifier;
    SetsSpeedIff(RequestOf(job, k));
    StepsArePlain(job.manifest, k);
    VerbSurvives(job.python, ContextOf(job), job.manifest.steps[k].command);
  }

  /** The step of a speed in the trace is the one motion of the program. */
  lemma {:induction false} SpeedIsTheMotion(
    job: Job, signal: Signal, e: Evidence, p: nat, motion: nat, answer: nat, cleanup: nat)
    requires IsRun(job, signal, e) && p < |e.trace| && SetsSpeed(e.trace[p].request)
    requires Program(job.manifest, motion, answer, cleanup)
    ensures p == e.prepared + motion && Prepared(job, e) && p < e.last
    ensures TextsOf(job, job.manifest.steps[motion]).Some? && e.trace[p].request == RequestOf(job, motion)
  {
    hide Accepts, Recorded, Prepared, VerbOf, Upper, GateBefore, FirstAnswer, OnlyCleanup, TextsOf;
    StepsAreInPlace(job, signal, e, p);
    SendsItsVerb(job, p - e.prepared);
  }

  /** Whatever the gateway answers and whatever the variables hold, an admitted program sends at most one
      speed in a run. */
  lemma {:induction false} OneSpeedPerRun(job: Job, signal: Signal, e: Evidence, p: nat, q: nat)
    requires IsRun(job, signal, e) && p < |e.trace| && q < |e.trace|
    requires SetsSpeed(e.trace[p].request) && SetsSpeed(e.trace[q].request)
    ensures p == q
  {
    hide Recorded, Prepared, VerbOf, Upper, Program, AllPlain;
    var motion, answer, cleanup := AcceptedIsProgram(job.manifest);
    SpeedIsTheMotion(job, signal, e, p, motion, answer, cleanup);
    SpeedIsTheMotion(job, signal, e, q, motion, answer, cleanup);
  }

  /** The k-th of the four acts before p is the k-th gate, and it has passed. */
  predicate GatePassed(job: Job, trace: seq<Act>, p: nat, k: nat)
    requires k < 4 <= p <= |trace|
  {
    var act, m := trace[p - 4 + k], job.manifest;
    && act.request.SendStep? && act.request.index < |m.steps|
    && GateContract(m.steps[act.request.index], k)
    && ReplyError(job, m.steps[act.request.index], act.reply) == NoError
  }

  lemma {:induction false} GateIsSent(step: Step, k: nat)
    requires GateContract(step, k)
    ensures step.Send?
  {
  }

  /** The speed is set only directly after the four gates have passed, in their order, behind an
      acknowledged stop of everything and the expected identity, with no other step before the first of
      the program; it is not zero and lies within the bounds of the program and of the endpoint. */
  lemma {:induction false} SpeedIsGated(job: Job, signal: Signal, e: Evidence, p: nat)
    requires IsRun(job, signal, e) && p < |e.trace| && SetsSpeed(e.trace[p].request)
    ensures 9 <= p
    ensures forall k | 0 <= k < 4 :: GatePassed(job, e.trace, p, k)
    ensures e.trace[4].request == StopAll(false) && Acknowledged(e.trace[4].reply)
    ensures e.trace[3].request == Identify(2) && Identified(job, e.trace[3].reply)
    ensures forall i | 0 <= i < 5 :: !IsStep(e.trace[i].request)
    ensures Speed(job) != 0 && Minimum(job.manifest) <= Speed(job) <= Maximum(job.manifest)
  {
    hide Accepts, GateContract, ReplyError, FirstAnswer, OnlyCleanup, Identified, Acknowledged, Finished,
         TextsOf, SetsSpeed, AllPlain, AttemptsMotion;
    var motion, answer, cleanup := AcceptedIsProgram(job.manifest);
    SpeedIsTheMotion(job, signal, e, p, motion, answer, cleanup);
    forall k | 0 <= k < 4 ensures GatePassed(job, e.trace, p, k) {
      assert GateBefore(job.manifest, motion, k);
      var index := motion - 4 + k;
      GateIsSent(job.manifest.steps[index], k);
      assert StepPassed(job, e.trace, e.prepared, index);
    }
  }

  // ----------------------------------------------------------------------------- what was sent

  /** The texts of the one motion: the endpoint of the program, and whatever fills the hole of the
      motion variable. */
  lemma {:induction false} SpeedTexts(job: Job, k: nat, text: string)
    requires Accepts(job.manifest) && k < |job.manifest.steps| && IsMotion(job.manifest.steps[k])
    requires Filled(job.python, ContextOf(job), job.manifest.motionVariable) == Some(text) && Solid(text)
    ensures TextsOf(job, job.manifest.steps[k]).Some?
    ensures var texts := TextsOf(job, job.manifest.steps[k]).value;
            && Words(texts.0) == ["SET_ENDPOINT_SPEED", job.manifest.target.endpointId, text]
            && texts.1 == SPEED_ACKNOWLEDGED + (job.manifest.target.endpointId + (" RPM_TARGET:" + text))
  {
    hide Accepts, VerbOf, Upper, Rendered, AssertionFits, TemplateFits, Filled, Words, Solid, Identifier;
    var m, step := job.manifest, job.manifest.steps[k];
    StepsArePlain(m, k);
    MotionVariableIsName(m);
    EndpointFills(job);
    SpeedWords(job, Words(step.command), text);
    RenderedWords(job.python, ContextOf(job), step.command, ["SET_ENDPOINT_SPEED", m.target.endpointId, text]);
    SpeedPrefix(job, m.motionVariable, text);
  }

  lemma {:induction false} MotionVariableIsName(m: Manifest)
    requires Accepts(m)
    ensures m.motionVariable != "" && (forall c | c in m.motionVariable :: !Special(c))
    ensures m.motionVariable in m.variables && EndpointId(m.target.endpointId)
  {
    hide IdentityFits, SafetyFits, CleanupFits, SelectorFits, AllFit, GatesFit, ScanTo, DefinitionFits;
    IdentifierIsName(m.motionVariable);
  }

  lemma {:induction false} EndpointFills(job: Job)
    requires EndpointId(job.manifest.target.endpointId)
    ensures Filled(job.python, ContextOf(job), "endpoint_id") == Some(job.manifest.target.endpointId)
    ensures Solid(job.manifest.target.endpointId)
  {
    hide Filled, EndpointId, Solid;
    PlainName(job.python, ContextOf(job), "endpoint_id");
    EndpointIsWord(job.manifest.target.endpointId);
  }

  lemma {:induction false} EndpointIsWord(id: string)
    requires EndpointId(id)
    ensures Solid(id)
  {
    forall i | 0 <= i < |id| ensures !Blank(id[i]) {
      assert id[i] in id;
    }
  }

  lemma {:induction false} SpeedWords(job: Job, words: seq<string>, text: string)
    requires var name := job.manifest.motionVariable;
             && words == ["SET_ENDPOINT_SPEED", "{endpoint_id}", HoleOf(name)]
             && name != "" && (forall c | c in name :: !Special(c))
             && Filled(job.python, ContextOf(job), name) == Some(text) && Solid(text)
    requires Filled(job.python, ContextOf(job), "endpoint_id") == Some(job.manifest.target.endpointId)
    requires Solid(job.manifest.target.endpointId)
    ensures WordsRender(job.python, ContextOf(job), words,
                        ["SET_ENDPOINT_SPEED", job.manifest.target.endpointId, text])
  {
    hide Filled;
    var name := job.manifest.motionVariable;
    assert HoleOf(name)[1..|HoleOf(name)| - 1] == name;
    assert "{endpoint_id}" == HoleOf("endpoint_id");
    assert HoleOf("endpoint_id")[1..|HoleOf("endpoint_id")| - 1] == "endpoint_id";
  }

  lemma {:induction false} SpeedPrefix(job: Job, name: string, text: string)
    requires name != "" && (forall c | c in name :: !Special(c))
    requires Filled(job.python, ContextOf(job), name) == Some(text)
    requires Filled(job.python, ContextOf(job), "endpoint_id") == Some(job.manifest.target.endpointId)
    ensures Rendered(job.python, ContextOf(job),
                     SPEED_ACKNOWLEDGED + (HoleOf("endpoint_id") + (" RPM_TARGET:" + HoleOf(name))))
            == Some(SPEED_ACKNOWLEDGED + (job.manifest.target.endpointId + (" RPM_TARGET:" + text)))
  {
    hide Rendered, Filled;
    var py, context := job.python, ContextOf(job);
    assert HoleOf(name) + "" == HoleOf(name);
    NothingRenders(py, context);
    HoleRenders(py, context, name, "");
    assert text + "" == text;
    BracelessRenders(py, context, " RPM_TARGET:", HoleOf(name));
    HoleRenders(py, context, "endpoint_id", " RPM_TARGET:" + HoleOf(name));
    BracelessRenders(py, context, SPEED_ACKNOWLEDGED, HoleOf("endpoint_id") + (" RPM_TARGET:" + HoleOf(name)));
  }

  /** May the name of the variable stand for its value in a template? */
  predicate PlainVariable(name: string) {
    '.' !in name && name != "endpoint_id"
  }

  /** If so, the one speed of a run is sent to the endpoint of the program and is the speed that was
      asked for and checked, whatever the white space and the other variables of the program are. */
  lemma {:induction false} SentSpeedIsChecked(job: Job, signal: Signal, e: Evidence, p: nat)
    requires IsRun(job, signal, e) && PlainVariable(job.manifest.motionVariable)
    requires p < |e.trace| && SetsSpeed(e.trace[p].request)
    ensures Words(e.trace[p].request.command) ==
              ["SET_ENDPOINT_SPEED", job.manifest.target.endpointId, Decimal(Speed(job))]
    ensures Minimum(job.manifest) <= Speed(job) <= Maximum(job.manifest)
  {
    hide Accepts, Recorded, VerbOf, Upper, Program, AllPlain, Words, TextsOf, Filled;
    var motion, answer, cleanup := AcceptedIsProgram(job.manifest);
    SpeedIsTheMotion(job, signal, e, p, motion, answer, cleanup);
    MotionIsMarked(job.manifest, motion, answer, cleanup);
    SpeedFills(job);
    SpeedTexts(job, motion, Decimal(Speed(job)));
  }

  lemma {:induction false} MotionIsMarked(m: Manifest, motion: nat, answer: nat, cleanup: nat)
    requires Program(m, motion, answer, cleanup)
    ensures motion < |m.steps| && IsMotion(m.steps[motion])
  {
  }

  lemma {:induction false} SpeedFills(job: Job)
    requires Speed(job) != 0 && PlainVariable(job.manifest.motionVariable)
    ensures Filled(job.python, ContextOf(job), job.manifest.motionVariable) == Some(Decimal(Speed(job)))
  {
    PlainName(job.python, ContextOf(job), job.manifest.motionVariable);
  }

  /** And when that step passes, the gateway has acknowledged exactly this speed for this endpoint. */
  lemma {:induction false} PassedSpeedIsAcknowledged(job: Job, signal: Signal, e: Evidence, p: nat)
    requires IsRun(job, signal, e) && PlainVariable(job.manifest.motionVariable)
    requires p < e.prepared + e.done && p < |e.trace| && SetsSpeed(e.trace[p].request)
    ensures var lines := e.trace[p].reply.lines;
            && lines != []
            && lines[|lines| - 1] ==
                 "OK SET_ENDPOINT_SPEED ID:" + (job.manifest.target.endpointId + (" RPM_TARGET:" + Decimal(Speed(job))))
  {
    hide Accepts, VerbOf, Upper, Program, AllPlain, Words, TextsOf, Filled, AssertionError, Ran, Finished, Prepared;
    var motion, answer, cleanup := AcceptedIsProgram(job.manifest);
    SpeedIsTheMotion(job, signal, e, p, motion, answer, cleanup);
    MotionIsMarked(job.manifest, motion, answer, cleanup);
    SpeedFills(job);
    SpeedTexts(job, motion, Decimal(Speed(job)));
    assert StepPassed(job, e.trace, e.prepared, motion);
    SetsSpeedIff(e.trace[p].request);
  }

  /** A Python without attributes and without numbers in texts. */
  const NOTHING: Python := Python((datum, name) => None, text => None)

  /** The condition is exact: the hole of the motion variable is filled with every value the variable can
      have exactly for such names.  A dot asks for an attribute of another variable, and endpoint_id is
      the endpoint; the validation admits both as the name of the speed. */
  lemma {:induction false} SpeedIsRenderedIff(name: string, endpoint: string)
    requires Identifier(name)
    ensures (forall speed: int ::
               Filled(NOTHING, map[name := Integer(speed)]["endpoint_id" := Text(endpoint)], name)
               == Some(Decimal(speed)))
            <==> PlainVariable(name)
  {
    if PlainVariable(name) {
      forall speed: int
        ensures Filled(NOTHING, map[name := Integer(speed)]["endpoint_id" := Text(endpoint)], name)
                == Some(Decimal(speed))
      {
        PlainName(NOTHING, map[name := Integer(speed)]["endpoint_id" := Text(endpoint)], name);
      }
    } else if name == "endpoint_id" {
      PlainName(NOTHING, map[name := Integer(0)]["endpoint_id" := Text(endpoint)], name);
      PlainName(NOTHING, map[name := Integer(1)]["endpoint_id" := Text(endpoint)], name);
      if Decimal(0) == Decimal(1) {
        DecimalIsInjective(0, 1);
      }
    } else {
      var context: Context := map[name := Integer(0)]["endpoint_id" := Text(endpoint)];
      var i :| 0 <= i < |name| && name[i] == '.';
      assert FirstDot(name) < |name|;
      assert Filled(NOTHING, context, name) != Some(Decimal(0));
    }
  }

  /** A speed by the name of endpoint_id sends the id of the endpoint, whatever speed was asked for. */
  lemma {:induction false} EndpointIdIsSent(job: Job, signal: Signal, e: Evidence, p: nat)
    requires IsRun(job, signal, e) && job.manifest.motionVariable == "endpoint_id"
    requires p < |e.trace| && SetsSpeed(e.trace[p].request)
    ensures var id := job.manifest.target.endpointId;
            Words(e.trace[p].request.command) == ["SET_ENDPOINT_SPEED", id, id]
  {
    hide Accepts, Recorded, VerbOf, Upper, Program, AllPlain, Words, TextsOf, Filled;
    var motion, answer, cleanup := AcceptedIsProgram(job.manifest);
    SpeedIsTheMotion(job, signal, e, p, motion, answer, cleanup);
    MotionIsMarked(job.manifest, motion, answer, cleanup);
    MotionVariableIsName(job.manifest);
    EndpointFills(job);
    SpeedTexts(job, motion, job.manifest.target.endpointId);
  }

  /** For example: a speed whose name has a dot, in a program without a variable named like the part
      before it, is never sent, and the run does not pass. */
  lemma {:induction false} UnreadableSpeedIsNeverSent(job: Job, signal: Signal, e: Evidence)
    requires IsRun(job, signal, e)
    requires var name := job.manifest.motionVariable;
             '.' in name && name[..FirstDot(name)] !in ContextOf(job)
    ensures e.status != Pass
    ensures forall p | 0 <= p < |e.trace| :: !SetsSpeed(e.trace[p].request)
  {
    hide Accepts, Recorded, VerbOf, Upper, Program, AllPlain, TextsOf;
    var motion, answer, cleanup := AcceptedIsProgram(job.manifest);
    MotionIsMarked(job.manifest, motion, answer, cleanup);
    UnreadableMotion(job, motion);
    forall p: nat | p < |e.trace| && SetsSpeed(e.trace[p].request) ensures false {
      SpeedIsTheMotion(job, signal, e, p, motion, answer, cleanup);
    }
    PassIff(job, signal, e);
    if e.status == Pass {
      assert StepPassed(job, e.trace, e.prepared, motion);
      PassedIsRendered(job, e.trace, e.prepared, motion);
      MotionIsSent(job.manifest, motion);
    }
  }

  lemma {:induction false} UnreadableMotion(job: Job, k: nat)
    requires Accepts(job.manifest) && k < |job.manifest.steps| && IsMotion(job.manifest.steps[k])
    requires Filled(job.python, ContextOf(job), job.manifest.motionVariable).None?
    ensures TextsOf(job, job.manifest.steps[k]).None?
  {
    hide Accepts, VerbOf, Upper, Rendered, AssertionFits, TemplateFits, Filled, Words, Identifier, PrefixFits;
    var m, step := job.manifest, job.manifest.steps[k];
    StepsArePlain(m, k);
    MotionVariableIsName(m);
    var name := m.motionVariable;
    assert HoleOf(name)[1..|HoleOf(name)| - 1] == name;
    assert HoleOf("endpoint_id")[1..|HoleOf("endpoint_id")| - 1] == "endpoint_id";
    assert HoleOf("endpoint_id") == "{endpoint_id}" && HoleOf(name)[0] == '{';
    assert WordShape("SET_ENDPOINT_SPEED") && WordShape("{endpoint_id}") && WordShape(HoleOf(name));
    UnfilledHoleFails(job.python, ContextOf(job), step.command, 2);
  }

  // ------------------------------------------------------------------------- what the answers mean

  /** A record that carries the required fields carries every one of them under its capital name. */
  lemma {:induction false} CarriesAll(record: map<string, string>, required: seq<Field>, key: string)
    requires Carries(record, required) && key in Normalized(required)
    ensures key in record && record[key] == Normalized(required)[key]
  {
    var last := required[|required| - 1];
    if key != Upper(last.key) {
      CarriesAll(record, required[..|required| - 1], key);
    }
  }

  /** The record has all of these fields with these values. */
  predicate Has(record: map<string, string>, fields: map<string, string>) {
    forall key | key in fields :: key in record && record[key] == fields[key]
  }

  lemma {:induction false} CarriesHas(record: map<string, string>, required: seq<Field>, fields: map<string, string>)
    requires Carries(record, required) && Normalized(required) == fields
    ensures Has(record, fields)
  {
    hide Carries;
    forall key | key in fields ensures key in record && record[key] == fields[key] {
      CarriesAll(record, required, key);
    }
  }

  /** What a passed gate means: one record with the required fields, the number within the tolerance,
      and for the last gate that the record is the endpoint's own. */
  lemma {:induction false} PassedGateMeans(job: Job, step: Step, k: nat, r: Reply)
    requires GateContract(step, k) && ReplyError(job, step, r) == NoError
    ensures r.error == NoError && |r.records| == 1 && r.observed.Some?
    ensures k == 0 ==> r.observed.value == 1.0 && Has(r.records[0], COMPOSED)
    ensures k == 1 ==> r.observed.value == 0.0 && Has(r.records[0], PARKED)
    ensures k == 2 ==> r.observed.value == 0.0 && Has(r.records[0], SUPERVISED)
    ensures k == 3 ==>
              && -1.0 < r.observed.value < 1.0 && Has(r.records[0], HEALTHY)
              && Names(r.records[0], job.manifest.target.endpointId)
  {
    hide Carries, Names, Normalized, Has, AssertionError, ReplyError, GateContract, Upper;
    GateNumber(job, step, k, r);
    var a := step.assertion.value;
    AssertionMeans(job, a, r);
    CarriesHas(r.records[0], a.required, Normalized(a.required));
    GateAsserts(step, k);
  }

  lemma {:induction false} GateAsserts(step: Step, k: nat)
    requires GateContract(step, k) && step.Send? && step.assertion.Some?
    ensures var a := step.assertion.value;
            && k < 4
            && a.expected == Value(if k == 0 then 1.0 else 0.0)
            && (if k == 3 then 0.0 <= a.tolerance < 1.0 else a.tolerance == 0.0)
            && Normalized(a.required) ==
                 (if k == 0 then COMPOSED else if k == 1 then PARKED else if k == 2 then SUPERVISED else HEALTHY)
            && (k == 3 ==> Upper(a.record) == "ENDPOINT_OBSERVATION")
  {
    hide Normalized, Upper;
    RaisedRecord();
  }

  lemma {:induction false} RaisedRecord()
    ensures Upper("ENDPOINT_OBSERVATION") == "ENDPOINT_OBSERVATION"
  {
    UpperOfCapitals("ENDPOINT_OBSERVATION");
  }

  lemma {:induction false} UpperOfCapitals(s: string)
    requires forall i | 0 <= i < |s| :: 'A' <= s[i] <= 'Z' || s[i] == '_'
    ensures Upper(s) == s
  {
    if s != "" {
      UpperOfCapitals(s[1..]);
    }
  }

  lemma {:induction false} AssertionMeans(job: Job, a: Assertion, r: Reply)
    requires AssertionError(job, a, r) == NoError
    ensures r.observed.Some? && |r.records| == 1 && Carries(r.records[0], a.required)
    ensures Upper(a.record) == "ENDPOINT_OBSERVATION" ==> Names(r.records[0], job.manifest.target.endpointId)
    ensures NumberOf(job, a.expected).Some?
    ensures -a.tolerance <= r.observed.value - NumberOf(job, a.expected).value <= a.tolerance
  {
    hide Carries, Names, NumberOf, Upper;
  }

  lemma {:induction false} GateNumber(job: Job, step: Step, k: nat, r: Reply)
    requires GateContract(step, k) && ReplyError(job, step, r) == NoError
    ensures step.Send? && step.assertion.Some? && r.error == NoError
    ensures AssertionError(job, step.assertion.value, r) == NoError
  {
    hide TextsOf, Matches, AssertionError, Normalized;
  }

  /** What a verified standstill means. */
  lemma {:induction false} StandingMeans(m: Manifest, r: Reply)
    requires Accepts(m) && Standing(m, r)
    ensures r.observed.Some? && |r.records| == 1 && -1.0 < r.observed.value < 1.0
    ensures Has(r.records[0], HEALTHY) && Names(r.records[0], m.target.endpointId)
  {
    hide IdentityFits, MotionFits, TargetFits, SafetyFits, SelectorFits, AllFit, GatesFit, ScanTo, Carries, Names,
         Has, Normalized, Identifier, Upper;
    CarriesHas(r.records[0], m.cleanup.required, HEALTHY);
  }

  // ---------------------------------------------------------------------------------- the last stop

  /** The last stop of everything is sent exactly when the connection was opened and noted, and no
      signal arrived between the body and the stop; then it comes behind every step. */
  lemma {:induction false} LastStopIsSentIff(job: Job, signal: Signal, e: Evidence)
    requires Recorded(job, signal, e)
    ensures (exists f | 0 <= f < |e.trace| :: e.trace[f].request == StopAll(true)) <==>
              Connects(e.trace, signal) && !signal(e.trace[..e.last], InCleanup)
    ensures Connects(e.trace, signal) && !signal(e.trace[..e.last], InCleanup) ==>
              && e.last < |e.trace| && e.trace[e.last].request == StopAll(true)
              && forall p | 0 <= p < |e.trace| && IsStep(e.trace[p].request) :: p < e.last
  {
    hide Cleaned, Escapes, StatusOf, Identified, Acknowledged, TextsOf, AttemptsMotion;
    forall p: nat | p < |e.trace| && IsStep(e.trace[p].request) ensures p < e.last {
      StepsAreInPlace(job, signal, e, p);
    }
    forall f: nat | f < |e.trace| && e.trace[f].request == StopAll(true)
      ensures Connects(e.trace, signal) && !signal(e.trace[..e.last], InCleanup)
    {
      BeforeCleanUp(job, signal, e, f);
    }
  }

  /** Between the preparation and the clean-up there are only steps. */
  lemma {:induction false} OnlySteps(job: Job, signal: Signal, e: Evidence, p: nat)
    requires Recorded(job, signal, e) && e.prepared <= p < e.last
    ensures IsStep(e.trace[p].request)
  {
    hide Cleaned, Escapes, StatusOf, Prepared, Connects, ReplyError, TextsOf, AttemptsMotion;
    if p < e.prepared + e.done {
      assert StepPassed(job, e.trace, e.prepared, p - e.prepared);
    }
  }

  /** No act before the clean-up is the last stop. */
  lemma {:induction false} BeforeCleanUp(job: Job, signal: Signal, e: Evidence, f: nat)
    requires Recorded(job, signal, e) && f < |e.trace| && e.trace[f].request == StopAll(true)
    ensures f >= e.last && e.last < |e.trace|
  {
    hide Cleaned, Escapes, StatusOf, Prepared, Connects, Ran, StepsPassed;
    if e.prepared <= f < e.last {
      OnlySteps(job, signal, e, f);
    }
  }

  /** So the only way for a step to go without a last stop is a signal right behind the body. */
  lemma {:induction false} UnstoppedIff(job: Job, signal: Signal, e: Evidence, p: nat)
    requires Recorded(job, signal, e) && p < |e.trace| && IsStep(e.trace[p].request)
    ensures (forall f | 0 <= f < |e.trace| :: e.trace[f].request != StopAll(true)) <==>
              signal(e.trace[..e.last], InCleanup)
    ensures signal(e.trace[..e.last], InCleanup) ==> e.trace == e.trace[..e.last] && e.status == Escaped
  {
    hide Cleaned, StatusOf, Identified, Acknowledged, TextsOf, AttemptsMotion, ReplyError;
    StepsAreInPlace(job, signal, e, p);
    LastStopIsSentIff(job, signal, e);
    assert e.last == |e.trace| ==> e.trace[..e.last] == e.trace;
  }

  // ------------------------------------------------------------------------------------- passing

  /** PASS is reported exactly when the connection was opened, every step has passed, the clean-up was
      verified, and no signal arrived behind the last step. */
  lemma {:induction false} PassIff(job: Job, signal: Signal, e: Evidence)
    requires Recorded(job, signal, e)
    ensures e.last <= |e.trace|
    ensures e.status == Pass <==>
              && e.connected && e.done == |job.manifest.steps|
              && StepsPassed(job, e.trace, e.prepared, |job.manifest.steps|)
              && e.last == e.prepared + e.done && Cleaned(job.manifest, e.moved, e.trace, e.last)
              && !signal(e.trace[..e.last], InBody) && !signal(e.trace, InCleanup)
  {
    hide Cleaned, StepsPassed, Connects, Prepared, AttemptsMotion, TextsOf, RequestOf;
  }

  lemma {:induction false} MotionIsNoted(job: Job, signal: Signal, e: Evidence, motion: nat)
    requires Recorded(job, signal, e) && e.done == |job.manifest.steps| && motion < |job.manifest.steps|
    requires IsMotion(job.manifest.steps[motion])
    ensures e.moved
  {
    hide Cleaned, Escapes, StatusOf, Connects, Prepared, StepsPassed, TextsOf, RequestOf, IsMotion;
    assert AttemptsMotion(job.manifest, e.last - e.prepared);
  }

  /** A passed run has stopped everything, sent its one speed, and afterwards, with everything stopped
      again, has seen its endpoint healthy and slower than one revolution a minute. */
  lemma {:induction false} PassMeansStopped(job: Job, signal: Signal, e: Evidence) returns (p: nat, f: nat)
    requires IsRun(job, signal, e) && e.status == Pass
    ensures p < f && f + 3 < |e.trace| && SetsSpeed(e.trace[p].request)
    ensures e.trace[f].request == StopAll(true) && Acknowledged(e.trace[f].reply)
    ensures e.trace[f + 2].request == Observe(job.manifest.target.endpointId)
    ensures var r := e.trace[f + 2].reply;
            && r.observed.Some? && -1.0 < r.observed.value < 1.0 && |r.records| == 1
            && Has(r.records[0], HEALTHY) && Names(r.records[0], job.manifest.target.endpointId)
    ensures StepsPassed(job, e.trace, e.prepared, |job.manifest.steps|)
  {
    hide Accepts, ReplyError, Standing, Program, AllPlain, Acknowledged, VerbOf, Upper, RequestOf, TextsOf,
         AttemptsMotion, StatusOf, Prepared, Connects, Has;
    PassIff(job, signal, e);
    var m := job.manifest;
    var motion, answer, cleanup := AcceptedIsProgram(m);
    MotionIsMarked(m, motion, answer, cleanup);
    MotionIsNoted(job, signal, e, motion);
    assert StepPassed(job, e.trace, e.prepared, motion);
    PassedIsRendered(job, e.trace, e.prepared, motion);
    MotionIsSent(m, motion);
    SendsItsVerb(job, motion);
    p, f := e.prepared + motion, e.last;
    StandingMeans(m, e.trace[f + 2].reply);
  }

  lemma {:induction false} MotionIsSent(m: Manifest, motion: nat)
    requires motion < |m.steps| && IsMotion(m.steps[motion])
    ensures m.steps[motion].Send?
  {
  }
}
