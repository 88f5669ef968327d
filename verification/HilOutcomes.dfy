/** What the status of a run means, and what had to be true before anything was sent to an endpoint. */
module HilOutcomes {
  import opened HilText
  import opened HilManifest
  import opened HilRunner
  import opened HilRuns
  import opened Prelude

  // ------------------------------------------------------------------------------------ the status

  /** The clean-up has been verified, if there was a connection to clean up. */
  ghost predicate CleanedUp(job: Job, e: Evidence) {
    e.connected ==> Cleaned(job.manifest, e.moved, e.trace, e.last)
  }

  /** Unless a signal ends the clean-up, the status tells the error of the run, and any failure of the
      clean-up counts more than the error. */
  lemma {:induction false} StatusIff(job: Job, signal: Signal, e: Evidence)
    requires Recorded(job, signal, e) && e.status != Escaped
    ensures e.status != Refused
    ensures e.status == Pass <==> CleanedUp(job, e) && e.error == NoError
    ensures e.status == Fail <==> CleanedUp(job, e) && e.error == AssertionFailed
    ensures e.status == Inconclusive <==> CleanedUp(job, e) && e.error == OtherError
    ensures e.status == AbortedForSafety <==>
              !CleanedUp(job, e) || e.error == Interrupt || e.error == GateFailed || e.error == CleanupFailed
  {
    hide Cleaned, StepsPassed, Connects, Prepared, AttemptsMotion, TextsOf, RequestOf, Caused;
  }

  /** The steps have begun, and the step at `e.done` has not passed. */
  ghost predicate Breaks(job: Job, e: Evidence, k: nat) {
    Prepared(job, e) && k == e.done < |job.manifest.steps|
  }

  /** A run that breaks off in one of the four gates is aborted for safety, whatever made the gate fail, and
      has set no speed. */
  lemma {:induction false} FailedGateAborts(job: Job, signal: Signal, e: Evidence, k: nat)
    requires IsRun(job, signal, e) && Breaks(job, e, k) && IsGate(job.manifest.steps[k])
    ensures e.status == AbortedForSafety || e.status == Escaped
    ensures forall p | 0 <= p < |e.trace| :: !SetsSpeed(e.trace[p].request)
  {
    hide Accepts, Cleaned, StepsPassed, Connects, AttemptsMotion, TextsOf, RequestOf, ReplyError, SetsSpeed, Program,
         AllPlain, Identified, Acknowledged;
    var motion, answer, cleanup := AcceptedIsProgram(job.manifest);
    GateIsEarly(job.manifest, k, motion, answer, cleanup);
    BrokenGate(job, signal, e, k);
    forall p: nat | p < |e.trace| && SetsSpeed(e.trace[p].request) ensures false {
      SpeedIsTheMotion(job, signal, e, p, motion, answer, cleanup);
      StepsAreInPlace(job, signal, e, p);
    }
    if e.status != Escaped {
      StatusIff(job, signal, e);
    }
  }

  lemma {:induction false} GateIsEarly(m: Manifest, k: nat, motion: nat, answer: nat, cleanup: nat)
    requires Program(m, motion, answer, cleanup) && k < |m.steps| && IsGate(m.steps[k])
    ensures k < motion && motion < |m.steps|
  {
    hide FirstAnswer, OnlyCleanup, GateBefore;
  }

  lemma {:induction false} BrokenGate(job: Job, signal: Signal, e: Evidence, k: nat)
    requires Recorded(job, signal, e) && Breaks(job, e, k) && IsGate(job.manifest.steps[k])
    ensures e.error == Interrupt || e.error == GateFailed
  {
    hide Cleaned, StepsPassed, Connects, AttemptsMotion, TextsOf, RequestOf, ReplyError, Identified, Acknowledged,
         Finished;
  }

  // ------------------------------------------------------------------------------- a contradiction

  /** Settings and stops need the expected text as their last line, everything else a line that begins with
      it. */
  predicate Answered(command: string, expected: string, lines: seq<string>) {
    if Words(command) != []
       && (Upper(Words(command)[0]) == "SET_ENDPOINT_SPEED" || Upper(Words(command)[0]) == "STOP_ENDPOINT") then
      lines != [] && lines[|lines| - 1] == expected
    else exists i | 0 <= i < |lines| :: expected <= lines[i]
  }

  lemma {:induction false} AnsweredIff(command: string, expected: string, lines: seq<string>)
    ensures Answered(command, expected, lines) <==> Matches(command, expected, lines)
  {
    hide Words, Upper;
    if Words(command) != [] {
      SpeedVerb(Upper(Words(command)[0]));
      StopVerbIs(Upper(Words(command)[0]));
    }
    hide VerbNamed;
  }

  lemma {:induction false} StopVerbIs(name: string)
    ensures VerbNamed(name) == Some(StopEndpoint) <==> name == "STOP_ENDPOINT"
  {
    assert "STOP_ENDPOINT"[0] != "COMPOSITION_STATUS"[0];
  }

  /** The value that an assertion waits for: its number, or the value of its variable, where the endpoint id
      hides a variable of that name. */
  predicate Awaits(job: Job, e: Expected, number: real) {
    match e
    case Value(value) => number == value
    case Variable(name) =>
      if name == "endpoint_id" then job.python.number(job.manifest.target.endpointId) == Some(number)
      else name in job.settings
           && match job.settings[name]
              case Integer(value) => number == value as real
              case Text(text) => job.python.number(text) == Some(number)
  }

  /** The answer has come and can be read, and says something else than the assertion: another endpoint, a
      required field that is absent or different, or a number that is too far away. */
  predicate Contradicts(job: Job, a: Assertion, r: Reply, number: real) {
    && r.observed.Some? && |r.records| == 1
    && var record := r.records[0];
       || (Upper(a.record) == "ENDPOINT_OBSERVATION" && !Names(record, job.manifest.target.endpointId))
       || (exists i | 0 <= i < |a.required| ::
             Upper(a.required[i].key) !in record || record[Upper(a.required[i].key)] != a.required[i].value)
       || (Awaits(job, a.expected, number)
           && !(-a.tolerance <= r.observed.value - number <= a.tolerance))
  }

  lemma {:induction false} AwaitsIff(job: Job, e: Expected, number: real)
    ensures Awaits(job, e, number) <==> NumberOf(job, e) == Some(number)
  {
  }

  lemma {:induction false} ContradictionFails(job: Job, a: Assertion, r: Reply, number: real)
    requires Contradicts(job, a, r, number)
    ensures AssertionError(job, a, r) == AssertionFailed
            || (AssertionError(job, a, r) == OtherError && NumberOf(job, a.expected).None?)
  {
    hide Upper, Names, Awaits, NumberOf;
    AwaitsIff(job, a.expected, number);
  }

  lemma {:induction false} FailureContradicts(job: Job, a: Assertion, r: Reply) returns (number: real)
    requires AssertionError(job, a, r) == AssertionFailed
    ensures Contradicts(job, a, r, number)
  {
    hide Upper, Names, Awaits, NumberOf;
    number := if NumberOf(job, a.expected).Some? then NumberOf(job, a.expected).value else 0.0;
    AwaitsIff(job, a.expected, number);
  }

  /** The gateway itself never claims that an assertion has failed. */
  predicate Honest(e: Evidence) {
    forall i | 0 <= i < |e.trace| :: e.trace[i].reply.error != AssertionFailed
  }

  /** FAIL is reported only for a contradiction: the step that broke off the run is no gate, its answer came
      and was the expected one, and what it showed contradicts its assertion. */
  lemma {:induction false} FailMeansContradiction(job: Job, signal: Signal, e: Evidence) returns (k: nat, number: real)
    requires IsRun(job, signal, e) && e.status == Fail && Honest(e)
    ensures Breaks(job, e, k) && e.last == e.prepared + k + 1 <= |e.trace|
    ensures var step, r := job.manifest.steps[k], e.trace[e.last - 1].reply;
            && step.Send? && !step.safetyGate && step.assertion.Some? && r.error == NoError
            && TextsOf(job, step).Some?
            && Answered(TextsOf(job, step).value.0, TextsOf(job, step).value.1, r.lines)
            && Contradicts(job, step.assertion.value, r, number)
  {
    hide Accepts, Cleaned, StepsPassed, Connects, AttemptsMotion, TextsOf, RequestOf, Matches, AssertionError,
         Contradicts, Identified, Acknowledged, Answered;
    k := e.done;
    StatusIff(job, signal, e);
    var step, r := job.manifest.steps[k], e.trace[e.last - 1].reply;
    FailingReply(job, step, r);
    AnsweredIff(TextsOf(job, step).value.0, TextsOf(job, step).value.1, r.lines);
    number := FailureContradicts(job, step.assertion.value, r);
  }

  lemma {:induction false} FailingReply(job: Job, step: Step, r: Reply)
    requires ReplyError(job, step, r) == AssertionFailed && r.error != AssertionFailed
    ensures step.Send? && step.assertion.Some? && r.error == NoError && TextsOf(job, step).Some?
    ensures Matches(TextsOf(job, step).value.0, TextsOf(job, step).value.1, r.lines)
    ensures AssertionError(job, step.assertion.value, r) == AssertionFailed
  {
    hide TextsOf, Matches, AssertionError;
  }

  /** And a contradiction of a step that is no gate always makes the run fail, unless its clean-up is not
      verified or a signal ends it. */
  lemma {:induction false} ContradictionMeansFail(job: Job, signal: Signal, e: Evidence, k: nat, number: real)
    requires IsRun(job, signal, e) && Breaks(job, e, k) && e.last == e.prepared + k + 1
    requires var step, r := job.manifest.steps[k], e.trace[e.last - 1].reply;
             && step.Send? && !step.safetyGate && step.assertion.Some? && r.error == NoError
             && TextsOf(job, step).Some?
             && Answered(TextsOf(job, step).value.0, TextsOf(job, step).value.1, r.lines)
             && Contradicts(job, step.assertion.value, r, number)
             && NumberOf(job, step.assertion.value.expected).Some?
    ensures if e.status == Escaped then Escapes(e, signal)
            else if CleanedUp(job, e) then e.status == Fail else e.status == AbortedForSafety
  {
    hide Accepts, Cleaned, StepsPassed, Connects, AttemptsMotion, TextsOf, RequestOf, Matches, AssertionError,
         Contradicts, Identified, Acknowledged, Answered, NumberOf;
    var step, r := job.manifest.steps[k], e.trace[e.last - 1].reply;
    AnsweredIff(TextsOf(job, step).value.0, TextsOf(job, step).value.1, r.lines);
    ContradictionFails(job, step.assertion.value, r, number);
    if e.status != Escaped {
      StatusIff(job, signal, e);
    }
  }

  // -------------------------------------------------------------------------------- passing a step

  /** The answer can be read, and says what the assertion says. */
  ghost predicate Confirms(job: Job, a: Assertion, r: Reply) {
    && r.observed.Some? && |r.records| == 1
    && exists number: real :: Awaits(job, a.expected, number) && !Contradicts(job, a, r, number)
  }

  lemma {:induction false} ConfirmsIff(job: Job, a: Assertion, r: Reply)
    ensures AssertionError(job, a, r) == NoError <==> Confirms(job, a, r)
  {
    hide Upper, Names, Awaits, NumberOf;
    forall number: real ensures Awaits(job, a.expected, number) <==> NumberOf(job, a.expected) == Some(number) {
      AwaitsIff(job, a.expected, number);
    }
    if NumberOf(job, a.expected).Some? {
      assert Awaits(job, a.expected, NumberOf(job, a.expected).value);
    }
  }

  /** A reply lets its step pass exactly when it came without an error, to texts that could be rendered, with
      the expected answer, and confirms the assertion, if there is one. */
  lemma {:induction false} PassesIff(job: Job, step: Step, r: Reply)
    ensures ReplyError(job, step, r) == NoError <==>
              && r.error == NoError
              && (step.Send? ==>
                    && TextsOf(job, step).Some?
                    && Answered(TextsOf(job, step).value.0, TextsOf(job, step).value.1, r.lines)
                    && (step.assertion.Some? ==> Confirms(job, step.assertion.value, r)))
  {
    hide TextsOf, Matches, Answered, AssertionError, Confirms;
    if step.Send? && TextsOf(job, step).Some? {
      AnsweredIff(TextsOf(job, step).value.0, TextsOf(job, step).value.1, r.lines);
      if step.assertion.Some? {
        ConfirmsIff(job, step.assertion.value, r);
      }
    }
  }

  /** A run breaks off behind a step that was sent only when its reply does not let it pass, or a sleep has
      overrun the time; it counts as interrupted exactly when the reply was. */
  lemma {:induction false} BreakIsFailure(job: Job, signal: Signal, e: Evidence)
    requires Recorded(job, signal, e) && e.last == e.prepared + e.done + 1
    ensures e.done < |job.manifest.steps|
    ensures var step, r := job.manifest.steps[e.done], e.trace[e.last - 1].reply;
            && e.error != NoError
            && (ReplyError(job, step, r) == NoError ==> step.Sleep?)
            && (e.error == Interrupt <==> r.error == Interrupt)
  {
    hide Cleaned, StepsPassed, Connects, AttemptsMotion, TextsOf, RequestOf, Matches, AssertionError, Identified,
         Acknowledged, Finished, Prepared;
    var step, r := job.manifest.steps[e.done], e.trace[e.last - 1].reply;
    NoAssertionInterrupts(job, step, r);
  }

  lemma {:induction false} NoAssertionInterrupts(job: Job, step: Step, r: Reply)
    ensures ReplyError(job, step, r) == Interrupt <==> r.error == Interrupt
  {
    hide TextsOf, Matches, Carries, Names, NumberOf, Upper;
  }

  /** A stop of everything is acknowledged by the exact text as the last line, and by nothing else. */
  lemma {:induction false} AcknowledgedIff(r: Reply)
    ensures Acknowledged(r) <==>
              r.error == NoError && exists before: seq<string> :: EndsIn(r.lines, before, "OK STOP ALL")
  {
    if Acknowledged(r) {
      assert EndsIn(r.lines, r.lines[..|r.lines| - 1], "OK STOP ALL");
    }
  }

  predicate EndsIn(lines: seq<string>, before: seq<string>, last: string) {
    lines == before + [last]
  }

  /** The observation shows the endpoint of an admitted program standing still exactly when it came without
      an error, is one record of that endpoint with every required field, and its number lies within the
      tolerance of zero. */
  lemma {:induction false} StandingIff(m: Manifest, r: Reply)
    requires Accepts(m)
    ensures Standing(m, r) <==>
              && r.error == NoError && r.observed.Some? && |r.records| == 1
              && "ID" in r.records[0] && r.records[0]["ID"] == m.target.endpointId
              && (forall i | 0 <= i < |m.cleanup.required| ::
                    && Upper(m.cleanup.required[i].key) in r.records[0]
                    && r.records[0][Upper(m.cleanup.required[i].key)] == m.cleanup.required[i].value)
              && -m.cleanup.tolerance <= r.observed.value <= m.cleanup.tolerance
  {
    hide IdentityFits, MotionFits, TargetFits, SafetyFits, SelectorFits, AllFit, GatesFit, ScanTo, Normalized,
         Identifier, Upper, HEALTHY;
  }

  // ------------------------------------------------------------------------------------- a good run

  /** No signal arrives, and the time is never up. */
  ghost predicate Undisturbed(clock: Clock, signal: Signal) {
    && (forall trace: seq<Act>, moment: Moment :: !signal(trace, moment))
    && (forall trace: seq<Act>, reading: Reading :: !clock(trace, reading))
  }

  /** The answer is what the runner hopes for. */
  predicate Good(job: Job, request: Request, r: Reply) {
    && r.error == NoError
    && match request
       case Identify(k) => k == 2 ==> Identified(job, r)
       case StopAll(_) => Acknowledged(r)
       case SendStep(index, _) =>
         index < |job.manifest.steps| ==> ReplyError(job, job.manifest.steps[index], r) == NoError
       case Observe(_) => Standing(job.manifest, r)
       case _ => true
  }

  predicate AllGood(job: Job, e: Evidence) {
    forall i | 0 <= i < |e.trace| :: Good(job, e.trace[i].request, e.trace[i].reply)
  }

  lemma {:induction false} GoodPreparation(job: Job, clock: Clock, signal: Signal, e: Evidence)
    requires IsRun(job, signal, e) && Reasoned(job, clock, signal, e) && Undisturbed(clock, signal)
    requires AllGood(job, e)
    ensures Prepared(job, e)
  {
    hide Accepts, Cleaned, StepsPassed, AttemptsMotion, TextsOf, RequestOf, ReplyError, Identified, Acknowledged,
         Finished, Caused, Ran, StopsAt;
    var head := e.trace[..e.prepared];
    assert forall k | 0 <= k < |head| :: head[k].request == Opening(k);
    if e.prepared >= 4 {
      assert e.trace[3].request == Identify(2);
    }
    assert |head| == 5;
    assert e.trace[4].request == StopAll(false);
  }

  predicate Renderable(job: Job) {
    forall k | 0 <= k < |job.manifest.steps| ::
      job.manifest.steps[k].Send? ==> TextsOf(job, job.manifest.steps[k]).Some?
  }

  lemma {:induction false} GoodBody(job: Job, clock: Clock, signal: Signal, e: Evidence)
    requires IsRun(job, signal, e) && Reasoned(job, clock, signal, e) && Undisturbed(clock, signal)
    requires AllGood(job, e) && Renderable(job)
    ensures e.error == NoError
  {
    hide Accepts, Cleaned, StepsPassed, AttemptsMotion, TextsOf, Identified, Acknowledged, Standing, ReplyError,
         CleansUp, EndsPreparation, Finished;
    GoodPreparation(job, clock, signal, e);
    if e.done < |job.manifest.steps| && e.last == e.prepared + e.done + 1 {
      GoodStep(job, e);
    }
  }

  lemma {:induction false} GoodStep(job: Job, e: Evidence)
    requires e.prepared + e.done < |e.trace| && e.done < |job.manifest.steps| && AllGood(job, e)
    requires e.trace[e.prepared + e.done].request == RequestOf(job, e.done)
    ensures ReplyError(job, job.manifest.steps[e.done], e.trace[e.prepared + e.done].reply) == NoError
  {
    hide TextsOf, Matches, AssertionError, Identified, Standing;
  }

  lemma {:induction false} GoodCleanUp(job: Job, clock: Clock, signal: Signal, e: Evidence)
    requires IsRun(job, signal, e) && Reasoned(job, clock, signal, e) && Undisturbed(clock, signal)
    requires AllGood(job, e) && e.connected
    ensures Cleaned(job.manifest, e.moved, e.trace, e.last)
  {
    hide Accepts, StepsPassed, AttemptsMotion, TextsOf, Identified, Acknowledged, Standing, ReplyError, BodyEnds,
         Caused, Ran, Prepared, Connects;
  }

  /** And nothing but such a reason keeps a run from passing: an undisturbed run of a program whose texts can be
      rendered, with every answer as hoped for, passes. */
  lemma {:induction false} GoodRunPasses(job: Job, clock: Clock, signal: Signal, e: Evidence)
    requires IsRun(job, signal, e) && Reasoned(job, clock, signal, e) && Undisturbed(clock, signal)
    requires AllGood(job, e) && Renderable(job)
    ensures e.status == Pass
  {
    hide Accepts, Cleaned, AllGood, Renderable, Underway, BodyEnds, CleansUp, StatusOf;
    GoodPreparation(job, clock, signal, e);
    GoodBody(job, clock, signal, e);
    GoodCleanUp(job, clock, signal, e);
    StatusIff(job, signal, e);
  }

  // ------------------------------------------------------------------------------------- admission

  const HEX: string := "0123456789abcdefABCDEF"

  lemma {:induction false} HexIff(c: char)
    ensures c in HEX <==> '0' <= c <= '9' || 'a' <= c <= 'f' || 'A' <= c <= 'F'
  {
    assert HEX[0] == '0' && HEX[1] == '1' && HEX[2] == '2' && HEX[3] == '3' && HEX[4] == '4' && HEX[5] == '5';
    assert HEX[6] == '6' && HEX[7] == '7' && HEX[8] == '8' && HEX[9] == '9' && HEX[10] == 'a' && HEX[11] == 'b';
    assert HEX[12] == 'c' && HEX[13] == 'd' && HEX[14] == 'e' && HEX[15] == 'f' && HEX[16] == 'A' && HEX[17] == 'B';
    assert HEX[18] == 'C' && HEX[19] == 'D' && HEX[20] == 'E' && HEX[21] == 'F';
  }

  /** Which jobs are admitted to a run of an admitted program: clean firmware named by forty hexadecimal digits,
      the profile of the program, all three confirmations, and a speed that is given as a number, is not zero
      and is not outside the bounds of the program. */
  lemma {:induction false} AdmitsIff(job: Job)
    ensures var m, sha := job.manifest, job.expected.gitSha; var name := m.motionVariable;
            Admits(job) <==>
              && job.argumentsValid && job.expected.profile == m.profile && !job.expected.gitDirty
              && |sha| == 40 && (forall c | c in sha :: c in HEX)
              && (forall c | c in REQUIRED_CONFIRMATIONS :: c in job.confirmations)
              && name in job.settings && job.settings[name].Integer?
              && job.settings[name].number != 0
              && !(job.settings[name].number < Minimum(m)) && !(job.settings[name].number > Maximum(m))
  {
    var sha := job.expected.gitSha;
    forall c: char ensures c in HEX <==> '0' <= c <= '9' || 'a' <= c <= 'f' || 'A' <= c <= 'F' {
      HexIff(c);
    }
    hide HEX, REQUIRED_CONFIRMATIONS;
    assert |sha| == 40 ==> forall i | 0 <= i < 40 :: sha[i] in sha;
  }

  // ---------------------------------------------------------------------------------- the identity

  /** The same characters up to the case of the letters A to Z. */
  predicate SameText(a: string, b: string) {
    |a| == |b| && forall i | 0 <= i < |a| :: SameLetter(a[i], b[i])
  }

  predicate SameLetter(a: char, b: char) {
    || a == b
    || ('A' <= a <= 'Z' && b as int == a as int + 32)
    || ('A' <= b <= 'Z' && a as int == b as int + 32)
  }

  lemma {:induction false} LowerIsSame(a: string, b: string)
    ensures Lower(a) == Lower(b) <==> SameText(a, b)
    ensures |Lower(a)| == |a| && |Lower(b)| == |b|
  {
    if a == "" || b == "" {
      assert a != "" ==> Lower(a)[0] == Lower(a)[0];
      LowerLength(a);
      LowerLength(b);
    } else {
      LowerIsSame(a[1..], b[1..]);
      assert Lower(a)[1..] == Lower(a[1..]) && Lower(b)[1..] == Lower(b[1..]);
      assert Lower(a) == Lower(b) <==> Lower(a)[0] == Lower(b)[0] && Lower(a[1..]) == Lower(b[1..]);
      assert SameText(a, b) <==> SameLetter(a[0], b[0]) && SameText(a[1..], b[1..]) by {
        if SameLetter(a[0], b[0]) && SameText(a[1..], b[1..]) {
          forall i | 0 <= i < |a| ensures SameLetter(a[i], b[i]) {
            assert i > 0 ==> SameLetter(a[1..][i - 1], b[1..][i - 1]);
          }
        }
        if SameText(a, b) {
          forall i | 0 <= i < |a[1..]| ensures SameLetter(a[1..][i], b[1..][i]) {
            assert SameLetter(a[i + 1], b[i + 1]);
          }
        }
      }
    }
  }

  lemma {:induction false} LowerLength(s: string)
    ensures |Lower(s)| == |s|
  {
    if s != "" {
      LowerLength(s[1..]);
    }
  }

  /** Everything that has to be true of the board and its endpoint before the steps begin. */
  predicate Meets(job: Job, identity: Identity) {
    var m := job.manifest;
    && SameText(identity.gitSha, job.expected.gitSha) && |identity.gitSha| == 40 && !identity.gitDirty
    && identity.profile == m.profile && identity.board == job.expected.board
    && |identity.endpoints| == 1
    && var e := identity.endpoints[0];
       && e.available && e.id == m.target.endpointId && e.name == m.target.endpointName
       && m.selector.Some? && e.criticality == m.selector.value.criticality
       && (forall capability | capability in m.selector.value.capabilities :: Upper(capability) in e.capabilities)
       && "VELOCITY_RPM" in e.capabilities
       && e.low <= Minimum(m) <= Speed(job) <= Maximum(m) <= e.high && Speed(job) != 0
  }

  /** No step is ever run on another board, on unclean or other firmware, or with another endpoint than the
      one the program names, alone on its board, available, with the capability to turn, and with limits that
      contain those of the program and the speed. */
  lemma {:induction false} StepsMeetTheTarget(job: Job, signal: Signal, e: Evidence, p: nat)
    requires IsRun(job, signal, e) && p < |e.trace| && IsStep(e.trace[p].request)
    ensures e.prepared == 5 <= p && e.trace[3].request == Identify(2) && e.trace[3].reply.identity.Some?
    ensures Meets(job, e.trace[3].reply.identity.value)
    ensures REQUIRED_CONFIRMATIONS <= job.confirmations
  {
    hide Accepts, Recorded, Identified, Acknowledged, TextsOf, RequestOf, Meets;
    StepsAreInPlace(job, signal, e, p);
    IdentifiedIff(job, e.trace[3].reply);
  }

  /** The identification lets the steps begin exactly when this is so. */
  lemma {:induction false} IdentifiedIff(job: Job, r: Reply)
    requires Starts(job)
    ensures Identified(job, r) <==> r.identity.Some? && Meets(job, r.identity.value)
  {
    hide Accepts, HexDigest, Upper, Selected, Candidate;
    if r.identity.Some? {
      var identity := r.identity.value;
      LowerIsSame(identity.gitSha, job.expected.gitSha);
      assert |job.expected.gitSha| == 40 by { DigestLength(job.expected.gitSha); }
      SelectedIff(job, identity.endpoints);
      if |identity.endpoints| == 1 {
        CandidateIff(job, identity.endpoints[0]);
      }
    }
  }

  lemma {:induction false} CandidateIff(job: Job, e: Found)
    requires Accepts(job.manifest)
    ensures job.manifest.selector.Some?
    ensures Candidate(job.manifest.selector.value, e) <==>
              && e.available && "VELOCITY_RPM" in e.capabilities
              && forall c | c in job.manifest.selector.value.capabilities :: Upper(c) in e.capabilities
  {
    hide Accepts, Upper;
    SelectorOf(job.manifest);
    var capabilities := job.manifest.selector.value.capabilities;
    var i :| 0 <= i < |capabilities| && Upper(capabilities[i]) == "VELOCITY_RPM";
    assert capabilities[i] in capabilities;
    if Candidate(job.manifest.selector.value, e) {
      forall c | c in capabilities ensures Upper(c) in e.capabilities {
        var k :| 0 <= k < |capabilities| && capabilities[k] == c;
      }
    }
    assert forall k | 0 <= k < |capabilities| :: capabilities[k] in capabilities;
  }

  lemma {:induction false} DigestLength(s: string)
    requires HexDigest(s)
    ensures |s| == 40
  {
  }

  lemma {:induction false} SelectorOf(m: Manifest)
    requires Accepts(m)
    ensures m.selector.Some? && m.selector.value.inventoryCount == 1 && m.selector.value.exactCount == 1
    ensures exists i | 0 <= i < |m.selector.value.capabilities| ::
              Upper(m.selector.value.capabilities[i]) == "VELOCITY_RPM"
  {
    hide IdentityFits, MotionFits, SafetyFits, CleanupFits, AllFit, GatesFit, ScanTo, Identifier, Upper;
  }

  lemma {:induction false} SelectedIff(job: Job, endpoints: seq<Found>)
    requires Accepts(job.manifest)
    ensures Selected(job, endpoints) <==>
              && |endpoints| == 1 && job.manifest.selector.Some?
              && Candidate(job.manifest.selector.value, endpoints[0])
              && Suits(job, endpoints[0])
  {
    hide Accepts, Upper, Candidate, Suits;
    SelectorOf(job.manifest);
    var s := job.manifest.selector.value;
    if |endpoints| == 1 {
      assert endpoints[..0] == [];
      assert Candidates(s, endpoints[..0]) == [];
      assert Candidates(s, endpoints) == if Candidate(s, endpoints[0]) then [endpoints[0]] else [];
    }
  }

  /** The connection counts as opened exactly when the port has opened and no signal came before that could be
      noted. */
  lemma {:induction false} ConnectedIff(job: Job, signal: Signal, e: Evidence)
    requires Recorded(job, signal, e)
    ensures e.connected <==>
              && e.trace != [] && e.trace[0].request == Open && e.trace[0].reply.error == NoError
              && !signal([e.trace[0]], OpenReturned)
  {
    hide Cleaned, StepsPassed, AttemptsMotion, TextsOf, RequestOf, Identified, Acknowledged, Finished, Caused, Ran;
    assert e.trace != [] ==> e.trace[..1] == [e.trace[0]];
  }
}
