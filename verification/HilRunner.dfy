/** The runner of the hardware-in-the-loop programs.  The gateway and the clock answer arbitrarily:
    every request may be answered, time out, fail or be interrupted, and a signal may arrive between
    any two of them.  The evidence keeps the trace of requests and replies and the status; files are
    left out. */
module HilRunner {
  import opened HilText
  import opened HilManifest
  import opened Prelude

  datatype Error = NoError | Interrupt | GateFailed | CleanupFailed | AssertionFailed | OtherError

  /** Identification takes three commands; `StopAll` is sent once before the steps and once at the end. */
  datatype Request =
    | Open
    | Identify(k: nat)
    | StopAll(final: bool)
    | SendStep(index: nat, command: string)
    | SleepStep(index: nat)
    | Settle
    | Observe(endpoint: string)
    | Close

  datatype Found = Found(
    id: string, name: string, capabilities: set<string>, available: bool, criticality: string,
    low: int, high: int)

  datatype Identity = Identity(gitSha: string, gitDirty: bool, profile: string, board: string, endpoints: seq<Found>)

  /** The lines of an answer and what the runner parses out of them: the one number in the asserted
      field, the records of the asserted kind, and what the three answers of the identification say. */
  datatype Reply = Reply(
    error: Error, lines: seq<string>, observed: Option<real>, records: seq<map<string, string>>,
    identity: Option<Identity>)

  datatype Act = Act(request: Request, reply: Reply)

  type World = (seq<Act>, Request) -> Reply

  datatype Reading = BeforeStop | BeforeStep(index: nat) | TooLong(index: nat) | AfterSleep(index: nat)

  /** Is the time up? */
  type Clock = (seq<Act>, Reading) -> bool

  /** Where a signal can arrive outside a request: inside the body, after the connection was opened
      and before that is noted, after a motion was noted and before it is sent, while the error is
      being handled, during the observation of the standstill, and elsewhere in the clean-up. */
  datatype Moment = InBody | OpenReturned | Marked | InHandler | InVerification | InCleanup

  type Signal = (seq<Act>, Moment) -> bool

  datatype Expectations = Expectations(gitSha: string, gitDirty: bool, profile: string, board: string)

  /** `argumentsValid` covers the paths, names and digests that only the evidence shows. */
  datatype Job = Job(
    manifest: Manifest, expected: Expectations, settings: Context, confirmations: set<string>,
    argumentsValid: bool, python: Python)

  /** The run escapes when a signal interrupts its own clean-up or error handling: then no status is
      written. */
  datatype Status = Refused | Pass | Fail | Inconclusive | AbortedForSafety | Escaped

  /** `prepared` acts come before the steps, `done` steps have passed, and the act at `last` is the
      first of the clean-up. */
  datatype Evidence = Evidence(
    trace: seq<Act>, connected: bool, prepared: nat, done: nat, moved: bool, last: nat, error: Error,
    status: Status)

  // ------------------------------------------------------------------------------- what may start

  function Lower(s: string): string {
    if s == "" then ""
    else [if 'A' <= s[0] <= 'Z' then (s[0] as int + 32) as char else s[0]] + Lower(s[1..])
  }

  predicate HexDigest(s: string) {
    |s| == 40 && forall i | 0 <= i < 40 :: '0' <= s[i] <= '9' || 'a' <= s[i] <= 'f' || 'A' <= s[i] <= 'F'
  }

  /** The speed that the run is asked for, zero if there is none. */
  function Speed(job: Job): int {
    var name := job.manifest.motionVariable;
    if name in job.settings && job.settings[name].Integer? then job.settings[name].number else 0
  }

  predicate Admits(job: Job) {
    var m := job.manifest;
    && job.argumentsValid && job.expected.profile == m.profile
    && REQUIRED_CONFIRMATIONS <= job.confirmations
    && !job.expected.gitDirty && HexDigest(job.expected.gitSha)
    && Speed(job) != 0 && Minimum(m) <= Speed(job) <= Maximum(m)
  }

  predicate Starts(job: Job) {
    Accepts(job.manifest) && Admits(job)
  }

  // ------------------------------------------------------------------------------ one step's reply

  /** The values that templates and assertions see: the id of the selected endpoint hides a variable of
      that name. */
  function ContextOf(job: Job): Context {
    job.settings["endpoint_id" := Text(job.manifest.target.endpointId)]
  }

  function NumberOf(job: Job, e: Expected): Option<real> {
    match e
    case Value(number) => Some(number)
    case Variable(name) =>
      if name !in ContextOf(job) then None
      else match ContextOf(job)[name]
        case Integer(number) => Some(number as real)
        case Text(text) => job.python.number(text)
  }

  predicate Carries(record: map<string, string>, required: seq<Field>) {
    forall i | 0 <= i < |required| ::
      Upper(required[i].key) in record && record[Upper(required[i].key)] == required[i].value
  }

  predicate Names(record: map<string, string>, endpoint: string) {
    "ID" in record && record["ID"] == endpoint
  }

  function AssertionError(job: Job, a: Assertion, r: Reply): Error {
    if r.observed.None? || |r.records| != 1 then OtherError
    else if Upper(a.record) == "ENDPOINT_OBSERVATION" && !Names(r.records[0], job.manifest.target.endpointId) then
      AssertionFailed
    else if !Carries(r.records[0], a.required) then AssertionFailed
    else if NumberOf(job, a.expected).None? then OtherError
    else if Abs(r.observed.value - NumberOf(job, a.expected).value) > a.tolerance then AssertionFailed
    else NoError
  }

  /** Settings and stops are acknowledged by the whole last line, everything else by the beginning of
      any line. */
  predicate Matches(command: string, expected: string, lines: seq<string>) {
    if VerbOf(command) == Some(SetSpeed) || VerbOf(command) == Some(StopEndpoint) then
      lines != [] && lines[|lines| - 1] == expected
    else exists i | 0 <= i < |lines| :: expected <= lines[i]
  }

  /** The texts of a step that could be rendered, the command and the expected answer. */
  function TextsOf(job: Job, step: Step): Option<(string, string)> {
    if step.Sleep? then None
    else
      var command := Rendered(job.python, ContextOf(job), step.command);
      var expected := Rendered(job.python, ContextOf(job), step.prefix);
      if command.Some? && expected.Some? then Some((command.value, expected.value)) else None
  }

  function ReplyError(job: Job, step: Step, r: Reply): Error {
    if r.error != NoError then r.error
    else if step.Sleep? then NoError
    else if TextsOf(job, step).None? then OtherError
    else if !Matches(TextsOf(job, step).value.0, TextsOf(job, step).value.1, r.lines) then OtherError
    else if step.assertion.None? then NoError
    else AssertionError(job, step.assertion.value, r)
  }

  /** Any failure of a gate counts as a failed gate. */
  function Escalated(gate: bool, e: Error): Error {
    if gate && e != NoError && e != Interrupt then GateFailed else e
  }

  predicate Acknowledged(r: Reply) {
    r.error == NoError && r.lines != [] && r.lines[|r.lines| - 1] == "OK STOP ALL"
  }

  predicate Standing(m: Manifest, r: Reply) {
    && r.error == NoError && r.observed.Some? && |r.records| == 1
    && Names(r.records[0], m.target.endpointId) && Carries(r.records[0], m.cleanup.required)
    && Abs(r.observed.value - m.cleanup.expected) <= m.cleanup.tolerance
  }

  /** The request of a step; a step whose texts cannot be rendered makes none. */
  function RequestOf(job: Job, index: nat): Request
    requires index < |job.manifest.steps|
  {
    var step := job.manifest.steps[index];
    if step.Sleep? then SleepStep(index)
    else SendStep(index, if TextsOf(job, step).Some? then TextsOf(job, step).value.0 else "")
  }

  // ------------------------------------------------------------------------------- the selection

  predicate Candidate(s: Selector, e: Found) {
    e.available && forall i | 0 <= i < |s.capabilities| :: Upper(s.capabilities[i]) in e.capabilities
  }

  function Candidates(s: Selector, endpoints: seq<Found>): seq<Found> {
    if endpoints == [] then []
    else
      var last := endpoints[|endpoints| - 1];
      Candidates(s, endpoints[..|endpoints| - 1]) + if Candidate(s, last) then [last] else []
  }

  /** The one endpoint that the program names, and whose limits admit the program and the speed. */
  predicate Suits(job: Job, e: Found) {
    var m := job.manifest;
    && e.id == m.target.endpointId && e.name == m.target.endpointName
    && m.selector.Some? && e.criticality == m.selector.value.criticality
    && e.low <= Minimum(m) && Maximum(m) <= e.high && e.low <= Speed(job) <= e.high
  }

  predicate Selected(job: Job, endpoints: seq<Found>) {
    && job.manifest.selector.Some?
    && var s := job.manifest.selector.value; var candidates := Candidates(s, endpoints);
       && |endpoints| == s.inventoryCount && |candidates| == s.exactCount
       && candidates != [] && Suits(job, candidates[0])
  }

  /** The identity is the expected one, and the endpoint can be selected. */
  predicate Identified(job: Job, r: Reply) {
    && r.identity.Some?
    && var identity := r.identity.value;
       && Lower(identity.gitSha) == Lower(job.expected.gitSha) && identity.gitDirty == job.expected.gitDirty
       && identity.profile == job.expected.profile && identity.board == job.expected.board
       && Selected(job, identity.endpoints)
  }

  // ----------------------------------------------------------------------------------- the phases

  predicate IsStep(request: Request) {
    request.SendStep? || request.SleepStep?
  }

  predicate Connects(trace: seq<Act>, signal: Signal) {
    trace != [] && trace[0].reply.error == NoError && !signal(trace[..1], OpenReturned)
  }

  /** Every reply in the trace is what the gateway answered to that request after everything before it. */
  ghost predicate Genuine(world: World, trace: seq<Act>) {
    forall i | 0 <= i < |trace| :: trace[i].reply == world(trace[..i], trace[i].request)
  }

  lemma {:induction false} GenuineGrows(world: World, trace: seq<Act>, request: Request)
    requires Genuine(world, trace)
    ensures Genuine(world, trace + [Act(request, world(trace, request))])
  {
    var longer := trace + [Act(request, world(trace, request))];
    forall i | 0 <= i < |longer| ensures longer[i].reply == world(longer[..i], longer[i].request) {
      assert longer[..i] == trace[..i];
      assert trace[..|trace|] == trace;
    }
  }

  /** The k-th request of a run. */
  function Opening(k: nat): Request {
    if k == 0 then Open else if k < 4 then Identify(k - 1) else StopAll(false)
  }

  /** The preparation makes its requests in order, and ends behind these acts for a reason. */
  predicate EndsPreparation(job: Job, clock: Clock, signal: Signal, trace: seq<Act>) {
    (forall k | 0 <= k < |trace| :: trace[k].request == Opening(k)) && EndsWith(job, clock, signal, trace)
  }

  predicate EndsWith(job: Job, clock: Clock, signal: Signal, trace: seq<Act>) {
    || signal(trace, InBody)
    || (trace != [] && trace[|trace| - 1].reply.error != NoError)
    || (|trace| == 1 && signal(trace, OpenReturned))
    || (|trace| == 4 && (!Identified(job, trace[3].reply) || clock(trace, BeforeStop)))
    || |trace| == 5
  }

  /** Why the preparation can fail: the port does not open, a signal, an identity that is not the expected
      one, no time left, or a stop that is not acknowledged. */
  predicate PreparationFailed(trace: seq<Act>, connected: bool, error: Error) {
    || error == NoError || error == Interrupt
    || (if connected then error == GateFailed || error == OtherError || error == CleanupFailed
        else trace != [] && error == trace[0].reply.error)
  }

  method Prepare(job: Job, world: World, clock: Clock, signal: Signal)
    returns (trace: seq<Act>, connected: bool, error: Error)
    ensures forall i | 0 <= i < |trace| :: !IsStep(trace[i].request) && trace[i].request != StopAll(true)
    ensures trace != [] ==> trace[0].request == Open
    ensures connected == Connects(trace, signal)
    ensures !connected ==> |trace| <= 1 && error != NoError
    ensures PreparationFailed(trace, connected, error) && |trace| <= 5
    ensures Genuine(world, trace) && EndsPreparation(job, clock, signal, trace)
    ensures error != NoError && |trace| == 5 ==> !Acknowledged(trace[4].reply)
    ensures error == NoError ==>
              && |trace| == 5 && trace[4].request == StopAll(false) && Acknowledged(trace[4].reply)
              && trace[3].request == Identify(2) && Identified(job, trace[3].reply)
  {
    hide Identified;
    trace, connected, error := [], false, Interrupt;
    if signal(trace, InBody) {
      return;
    }
    var reply := world([], Open);
    GenuineGrows(world, trace, Open);
    trace := [Act(Open, reply)];
    if reply.error != NoError {
      return trace, false, reply.error;
    }
    ghost var opening := trace;
    assert trace[..1] == trace;
    if signal(trace, OpenReturned) {
      return;
    }
    connected := true;
    for k := 0 to 3
      invariant |trace| == k + 1 && trace[..1] == opening && trace[0] == Act(Open, reply) && Genuine(world, trace)
      invariant trace[k].reply.error == NoError
      invariant forall i | 0 < i < |trace| :: trace[i].request == Identify(i - 1)
    {
      if signal(trace, InBody) {
        return;
      }
      var answer := world(trace, Identify(k));
      GenuineGrows(world, trace, Identify(k));
      trace := trace + [Act(Identify(k), answer)];
      assert trace[..1] == opening;
      if answer.error != NoError {
        return trace, connected, if answer.error == Interrupt then Interrupt else GateFailed;
      }
    }
    if signal(trace, InBody) {
      return;
    }
    if !Identified(job, trace[3].reply) {
      return trace, connected, GateFailed;
    }
    if clock(trace, BeforeStop) {
      return trace, connected, OtherError;
    }
    var stopped := world(trace, StopAll(false));
    GenuineGrows(world, trace, StopAll(false));
    trace := trace + [Act(StopAll(false), stopped)];
    assert trace[..1] == opening;
    error := if Acknowledged(stopped) then NoError else CleanupFailed;
  }

  /** Step k stands at its place in the trace and has passed. */
  predicate StepPassed(job: Job, trace: seq<Act>, from: nat, k: nat)
    requires k < |job.manifest.steps| && from + k < |trace|
  {
    && trace[from + k].request == RequestOf(job, k)
    && ReplyError(job, job.manifest.steps[k], trace[from + k].reply) == NoError
  }

  /** The steps at from, from + 1 and so on of the trace are the first n steps, and all have passed. */
  ghost predicate StepsPassed(job: Job, trace: seq<Act>, from: nat, n: nat) {
    && n <= |job.manifest.steps| && from + n <= |trace|
    && forall k | 0 <= k < n :: StepPassed(job, trace, from, k)
  }

  predicate AttemptsMotion(m: Manifest, n: nat)
    requires n <= |m.steps|
  {
    exists k | 0 <= k < n :: IsMotion(m.steps[k])
  }

  /** What becomes of a step by its reply; a sleep can also overrun the time. */
  predicate StepAnswered(job: Job, index: nat, r: Reply, error: Error)
    requires index < |job.manifest.steps|
  {
    var step := job.manifest.steps[index];
    || error == Escalated(step.safetyGate, ReplyError(job, step, r))
    || (step.Sleep? && r.error == NoError && error == Escalated(step.safetyGate, OtherError))
  }

  /** What keeps a step from being sent: a signal, no time left, or a placeholder that cannot be filled. */
  predicate Prevented(job: Job, clock: Clock, signal: Signal, trace: seq<Act>, index: nat)
    requires index < |job.manifest.steps|
  {
    var step := job.manifest.steps[index];
    || signal(trace, InBody) || clock(trace, BeforeStep(index))
    || (step.Sleep? && clock(trace, TooLong(index)))
    || (step.Send? && (TextsOf(job, step).None? || signal(trace, Marked)))
  }

  /** A sleep that has come back too late. */
  predicate Overran(job: Job, clock: Clock, trace: seq<Act>, index: nat)
    requires index < |job.manifest.steps|
  {
    job.manifest.steps[index].Sleep? && clock(trace, AfterSleep(index))
  }

  /** A step that is not sent fails by a signal, or because the time is up or its texts cannot be rendered. */
  predicate StepRefused(job: Job, index: nat, error: Error)
    requires index < |job.manifest.steps|
  {
    error == Interrupt || error == Escalated(job.manifest.steps[index].safetyGate, OtherError)
  }

  /** One step: nothing is sent when the time is up, or when a placeholder cannot be filled. */
  method RunStep(job: Job, world: World, clock: Clock, signal: Signal, trace: seq<Act>, index: nat)
    returns (after: seq<Act>, moved: bool, error: Error)
    requires index < |job.manifest.steps| && index <= |trace| && Genuine(world, trace)
    ensures trace <= after && |after| <= |trace| + 1 && Genuine(world, after)
    ensures |after| == |trace| <==> Prevented(job, clock, signal, trace, index)
    ensures |after| == |trace| + 1 ==>
              && after[|trace|].request == RequestOf(job, index)
              && (job.manifest.steps[index].Send? ==> TextsOf(job, job.manifest.steps[index]).Some?)
    ensures |after| == |trace| + 1 && IsMotion(job.manifest.steps[index]) ==> moved
    ensures moved ==> IsMotion(job.manifest.steps[index])
    ensures error == NoError ==> |after| == |trace| + 1 && StepPassed(job, after, |trace| - index, index)
    ensures |after| == |trace| + 1 ==> StepAnswered(job, index, after[|trace|].reply, error)
    ensures |after| == |trace| + 1 && !Overran(job, clock, after, index) ==>
              error == Escalated(job.manifest.steps[index].safetyGate,
                                 ReplyError(job, job.manifest.steps[index], after[|trace|].reply))
    ensures |after| == |trace| ==> StepRefused(job, index, error)
  {
    hide AssertionError, TextsOf, Matches;
    var step := job.manifest.steps[index];
    after, moved, error := trace, false, Interrupt;
    if signal(trace, InBody) {
      return;
    }
    if clock(trace, BeforeStep(index)) {
      return after, moved, Escalated(step.safetyGate, OtherError);
    }
    if step.Sleep? {
      if clock(trace, TooLong(index)) {
        return after, moved, Escalated(step.safetyGate, OtherError);
      }
      var reply := world(trace, SleepStep(index));
      GenuineGrows(world, trace, SleepStep(index));
      after := trace + [Act(SleepStep(index), reply)];
      error := reply.error;
      if error == NoError && clock(after, AfterSleep(index)) {
        error := OtherError;
      }
      return after, moved, Escalated(step.safetyGate, error);
    }
    var texts := TextsOf(job, step);
    if texts.None? {
      return after, moved, Escalated(step.safetyGate, OtherError);
    }
    moved := step.motion;
    if signal(trace, Marked) {
      return;
    }
    var reply := world(trace, SendStep(index, texts.value.0));
    GenuineGrows(world, trace, SendStep(index, texts.value.0));
    after := trace + [Act(SendStep(index, texts.value.0), reply)];
    error := Escalated(step.safetyGate, ReplyError(job, step, reply));
  }

  /** Why the steps end with the one at `done`: it was not sent, its reply did not let it pass, or it came back
      from a sleep too late. */
  predicate StopsAt(job: Job, clock: Clock, signal: Signal, from: nat, trace: seq<Act>, done: nat)
    requires done < |job.manifest.steps|
  {
    if |trace| == from + done then Prevented(job, clock, signal, trace, done)
    else
      && |trace| == from + done + 1
      && (|| ReplyError(job, job.manifest.steps[done], trace[|trace| - 1].reply) != NoError
          || Overran(job, clock, trace, done))
  }

  /** Runs the steps until one fails, the time is up or a signal arrives. */
  method RunSteps(job: Job, world: World, clock: Clock, signal: Signal, before: seq<Act>)
    returns (trace: seq<Act>, done: nat, moved: bool, asserted: bool, error: Error)
    requires Genuine(world, before)
    ensures before <= trace && done <= |job.manifest.steps| && Genuine(world, trace)
    ensures done < |job.manifest.steps| ==> StopsAt(job, clock, signal, |before|, trace, done)
    ensures StepsPassed(job, trace, |before|, done)
    ensures error == NoError <==> done == |job.manifest.steps| && !signal(trace, InBody)
    ensures || |trace| == |before| + done
            || (done < |job.manifest.steps| && |trace| == |before| + done + 1
                && trace[|before| + done].request == RequestOf(job, done)
                && (job.manifest.steps[done].Send? ==> TextsOf(job, job.manifest.steps[done]).Some?))
    ensures AttemptsMotion(job.manifest, |trace| - |before|) ==> moved
    ensures moved ==> AttemptsMotion(job.manifest, Min(done + 1, |job.manifest.steps|))
    ensures error == NoError ==> asserted == Asserts(job.manifest, |job.manifest.steps|)
    ensures |trace| == |before| + done + 1 ==> StepAnswered(job, done, trace[|before| + done].reply, error)
    ensures |trace| == |before| + done && error != NoError ==>
              error == Interrupt || (done < |job.manifest.steps| && StepRefused(job, done, error))
  {
    hide StepPassed, RequestOf, IsMotion, TextsOf, StepAnswered, StepRefused, Prevented, Overran, ReplyError, Genuine;
    trace, done, moved, asserted, error := before, 0, false, false, NoError;
    while done < |job.manifest.steps|
      invariant before <= trace && |trace| == |before| + done && error == NoError && Genuine(world, trace)
      invariant StepsPassed(job, trace, |before|, done)
      invariant moved == AttemptsMotion(job.manifest, done)
      invariant asserted == Asserts(job.manifest, done)
    {
      var step := job.manifest.steps[done];
      var after, marked, failure := RunStep(job, world, clock, signal, trace, done);
      moved := moved || marked;
      StepsStayPassed(job, trace, after, |before|, done);
      assert |after| == |trace| ==> after == trace;
      trace, error := after, failure;
      if error != NoError {
        return;
      }
      asserted := asserted || (step.Send? && step.assertion.Some?);
      done := done + 1;
    }
    if signal(trace, InBody) {
      error := Interrupt;
    }
  }

  predicate Asserts(m: Manifest, n: nat)
    requires n <= |m.steps|
  {
    exists k | 0 <= k < n :: m.steps[k].Send? && m.steps[k].assertion.Some?
  }

  /** The last stop was acknowledged and the connection closed, and after an attempted motion the
      endpoint was seen standing still in between. */
  ghost predicate Cleaned(m: Manifest, moved: bool, trace: seq<Act>, last: nat) {
    var end := |trace| - 1;
    && |trace| == last + (if moved then 4 else 2)
    && Acknowledged(trace[last].reply)
    && trace[end].request == Close && trace[end].reply.error == NoError
    && (moved ==>
          && trace[last + 1].request == Settle && trace[last + 1].reply.error == NoError
          && trace[last + 2].request == Observe(m.target.endpointId) && Standing(m, trace[last + 2].reply))
  }

  /** After an acknowledged stop that follows a motion: is the endpoint seen standing still? */
  method VerifyStandstill(m: Manifest, world: World, signal: Signal, before: seq<Act>)
    returns (trace: seq<Act>, standing: bool)
    requires Genuine(world, before)
    ensures Genuine(world, trace)
    ensures before <= trace && |before| < |trace| <= |before| + 2
    ensures trace[|before|].request == Settle
    ensures forall i | |before| <= i < |trace| :: !IsStep(trace[i].request)
    ensures |trace| == |before| + 1 <==>
              trace[|before|].reply.error != NoError || signal(trace[..|before| + 1], InVerification)
    ensures |trace| == |before| + 2 ==> trace[|before| + 1].request == Observe(m.target.endpointId)
    ensures standing <==>
              && |trace| == |before| + 2 && trace[|before|].reply.error == NoError
              && trace[|before| + 1].request == Observe(m.target.endpointId)
              && Standing(m, trace[|before| + 1].reply)
  {
    hide Standing;
    var settled := world(before, Settle);
    GenuineGrows(world, before, Settle);
    trace, standing := before + [Act(Settle, settled)], false;
    assert trace[..|before| + 1] == trace;
    ghost var waited := trace;
    if settled.error == NoError && !signal(trace, InVerification) {
      var seen := world(trace, Observe(m.target.endpointId));
      GenuineGrows(world, trace, Observe(m.target.endpointId));
      trace := trace + [Act(Observe(m.target.endpointId), seen)];
      assert trace[..|before| + 1] == waited;
      standing := Standing(m, seen);
    }
  }

  /** The acts of a clean-up that no signal ends: the last stop, behind an acknowledged one after a motion the
      observation of the standstill, and in any case the close. */
  predicate CleansUp(m: Manifest, moved: bool, signal: Signal, trace: seq<Act>, last: nat) {
    && last + 2 <= |trace| && trace[last].request == StopAll(true) && trace[|trace| - 1].request == Close
    && if !moved || !Acknowledged(trace[last].reply) then |trace| == last + 2
       else
         && trace[last + 1].request == Settle
         && if trace[last + 1].reply.error != NoError || signal(trace[..last + 2], InVerification) then
              |trace| == last + 3
            else
              |trace| == last + 4 && trace[last + 2].request == Observe(m.target.endpointId)
  }

  /** The last stop, and after a motion the observation of the standstill, unless a signal ends it. */
  method CleanUp(m: Manifest, connected: bool, moved: bool, world: World, signal: Signal, before: seq<Act>)
    returns (trace: seq<Act>, clean: bool)
    requires Genuine(world, before)
    ensures before <= trace && Genuine(world, trace)
    ensures if connected && !signal(before, InCleanup)
            then |trace| > |before| && trace[|before|].request == StopAll(true)
            else trace == before && clean
    ensures forall i | |before| <= i < |trace| :: !IsStep(trace[i].request)
    ensures connected && !signal(trace, InCleanup) ==> (clean <==> Cleaned(m, moved, trace, |before|))
    ensures connected && !signal(trace, InCleanup) ==> CleansUp(m, moved, signal, trace, |before|)
  {
    trace, clean := before, true;
    if signal(trace, InCleanup) || !connected {
      return;
    }
    var stopped := world(before, StopAll(true));
    GenuineGrows(world, before, StopAll(true));
    trace := before + [Act(StopAll(true), stopped)];
    clean := Acknowledged(stopped);
    if signal(trace, InCleanup) {
      return;
    }
    if moved && clean {
      trace, clean := VerifyStandstill(m, world, signal, trace);
      if signal(trace, InCleanup) {
        return;
      }
    }
    ghost var watched := trace;
    var closed := world(trace, Close);
    GenuineGrows(world, trace, Close);
    trace := trace + [Act(Close, closed)];
    assert |watched| >= |before| + 2 ==> trace[..|before| + 2] == watched[..|before| + 2];
    clean := clean && closed.error == NoError;
  }

  function StatusOf(escaped: bool, clean: bool, error: Error, asserted: bool): Status {
    if escaped then Escaped
    else if !clean then AbortedForSafety
    else match error
      case NoError => if asserted then Pass else Inconclusive
      case Interrupt => AbortedForSafety
      case GateFailed => AbortedForSafety
      case CleanupFailed => AbortedForSafety
      case AssertionFailed => Fail
      case OtherError => Inconclusive
  }

  /** A signal in the clean-up ends the run where it arrives; one while the error is handled lets the
      clean-up happen. */
  predicate Escapes(e: Evidence, signal: Signal)
    requires e.last <= |e.trace|
  {
    signal(e.trace, InCleanup) || (e.error != NoError && signal(e.trace[..e.last], InHandler))
  }

  /** What every run leaves behind. */
  ghost predicate Recorded(job: Job, signal: Signal, e: Evidence) {
    Underway(job, signal, e) && Finished(job.manifest, signal, e)
  }

  /** The preparation and the steps, with the error that ended them. */
  ghost predicate Underway(job: Job, signal: Signal, e: Evidence) {
    var trace, head, n, m := e.trace, e.prepared, e.done, job.manifest;
    && head <= e.last <= |trace| && n <= |m.steps| && StepsPassed(job, trace, head, n)
    && (forall i | 0 <= i < head :: !IsStep(trace[i].request) && trace[i].request != StopAll(true))
    && (trace != [] ==> trace[0].request == Open)
    && e.connected == Connects(trace, signal)
    && (!e.connected ==> n == 0 && !e.moved && e.last == head <= 1 && e.error != NoError)
    && Ran(job, e)
    && (n > 0 || e.last > head || e.moved || e.error == NoError ==> Prepared(job, e))
    && (e.error == NoError <==> e.connected && n == |m.steps| && !signal(trace[..e.last], InBody))
    && Caused(job, e)
  }

  /** The error of the run is that of the preparation, or of the step that ended it. */
  ghost predicate Caused(job: Job, e: Evidence)
    requires e.prepared <= e.last <= |e.trace| && e.done <= |job.manifest.steps|
  {
    if e.last == e.prepared + e.done + 1 && e.done < |job.manifest.steps| then
      StepAnswered(job, e.done, e.trace[e.last - 1].reply, e.error)
    else if Prepared(job, e) then
      || e.error == NoError || e.error == Interrupt
      || (e.done < |job.manifest.steps| && StepRefused(job, e.done, e.error))
    else PreparationFailed(e.trace[..e.prepared], e.connected, e.error)
  }

  /** Nothing ends the run without a reason. */
  ghost predicate Reasoned(job: Job, clock: Clock, signal: Signal, e: Evidence)
    requires e.prepared <= e.last <= |e.trace|
  {
    && BodyEnds(job, clock, signal, e)
    && (e.connected && !signal(e.trace, InCleanup) ==>
          CleansUp(job.manifest, e.moved, signal, e.trace, e.last))
  }

  ghost predicate BodyEnds(job: Job, clock: Clock, signal: Signal, e: Evidence)
    requires e.prepared <= e.last <= |e.trace|
  {
    && EndsPreparation(job, clock, signal, e.trace[..e.prepared])
    && (Prepared(job, e) && e.done < |job.manifest.steps| ==>
          StopsAt(job, clock, signal, e.prepared, e.trace[..e.last], e.done))
  }

  /** The steps begin behind an acknowledged stop of everything and the expected identity. */
  ghost predicate Prepared(job: Job, e: Evidence) {
    && e.connected && e.prepared == 5 <= |e.trace|
    && e.trace[4].request == StopAll(false) && Acknowledged(e.trace[4].reply)
    && e.trace[3].request == Identify(2) && Identified(job, e.trace[3].reply)
  }

  /** Behind the passed steps comes at most one step that did not pass, and a motion is noted no later
      than it is sent. */
  ghost predicate Ran(job: Job, e: Evidence)
    requires e.prepared <= e.last <= |e.trace|
  {
    var m, n := job.manifest, e.done;
    && n <= |m.steps| && e.prepared + n <= e.last <= e.prepared + n + 1
    && (e.last == e.prepared + n + 1 ==>
          && n < |m.steps| && e.trace[e.last - 1].request == RequestOf(job, n)
          && (m.steps[n].Send? ==> TextsOf(job, m.steps[n]).Some?))
    && (AttemptsMotion(m, e.last - e.prepared) ==> e.moved)
    && (e.moved ==> AttemptsMotion(m, Min(n + 1, |m.steps|)))
  }

  /** The clean-up and the status. */
  ghost predicate Finished(m: Manifest, signal: Signal, e: Evidence)
    requires e.last <= |e.trace|
  {
    && (forall i | e.last <= i < |e.trace| :: !IsStep(e.trace[i].request))
    && (if e.connected && !signal(e.trace[..e.last], InCleanup)
        then e.last < |e.trace| && e.trace[e.last].request == StopAll(true)
        else |e.trace| == e.last)
    && (e.status == Escaped <==> Escapes(e, signal))
    && (!Escapes(e, signal) ==>
          e.status == StatusOf(false, e.connected ==> Cleaned(m, e.moved, e.trace, e.last), e.error, true))
  }

  lemma {:induction false} NoStepsPassed(job: Job, trace: seq<Act>, from: nat)
    requires from <= |trace|
    ensures StepsPassed(job, trace, from, 0) && !AttemptsMotion(job.manifest, 0)
  {
  }

  lemma {:induction false} StepsStayPassed(job: Job, trace: seq<Act>, longer: seq<Act>, from: nat, n: nat)
    requires StepsPassed(job, trace, from, n) && trace <= longer
    ensures StepsPassed(job, longer, from, n)
  {
    hide ReplyError, RequestOf;
    forall k | 0 <= k < n ensures StepPassed(job, longer, from, k) {
      assert StepPassed(job, trace, from, k);
    }
  }

  /** An admitted program has something to assert. */
  lemma {:induction false} AcceptedAsserts(m: Manifest)
    requires Accepts(m)
    ensures m.steps != [] && Asserts(m, |m.steps|)
  {
    var motion, answer, cleanup := AcceptedIsProgram(m);
    hide FirstAnswer, OnlyCleanup;
    assert GateBefore(m, motion, 0);
    assert m.steps[motion - 4].Send? && m.steps[motion - 4].assertion.Some?;
  }

  /** The clean-up does not change what came before it. */
  lemma {:induction false} UnderwayStays(job: Job, clock: Clock, signal: Signal, e: Evidence, after: Evidence)
    requires Underway(job, signal, e) && BodyEnds(job, clock, signal, e) && e.last == |e.trace|
    requires after == e.(trace := after.trace, status := after.status)
    requires e.trace <= after.trace && (!e.connected ==> after.trace == e.trace)
    ensures Underway(job, signal, after) && BodyEnds(job, clock, signal, after)
  {
    hide StepsPassed, AttemptsMotion, RequestOf, TextsOf, Acknowledged, Identified, StepAnswered, StepRefused,
         PreparationFailed, StopsAt, EndsPreparation;
    var trace := after.trace;
    StepsStayPassed(job, e.trace, trace, e.prepared, e.done);
    assert trace[..e.last] == e.trace == e.trace[..e.last];
    assert trace[..e.prepared] == e.trace[..e.prepared];
    assert e.trace != [] ==> trace[..1] == e.trace[..1];
  }

  /** The preparation and the steps of a run. */
  method Begin(job: Job, world: World, clock: Clock, signal: Signal) returns (e: Evidence, asserted: bool)
    requires job.manifest.steps != []
    ensures Underway(job, signal, e) && BodyEnds(job, clock, signal, e) && e.last == |e.trace|
    ensures Genuine(world, e.trace)
    ensures e.error == NoError ==> asserted == Asserts(job.manifest, |job.manifest.steps|)
  {
    hide StepsPassed, AttemptsMotion, RequestOf, TextsOf, Acknowledged, Identified, Asserts,
         StepAnswered, StepRefused, PreparationFailed, Genuine, StopsAt, EndsPreparation;
    var trace, connected, error := Prepare(job, world, clock, signal);
    ghost var opening := trace;
    var prepared, done, moved := |trace|, 0, false;
    asserted := false;
    NoStepsPassed(job, trace, prepared);
    if error == NoError {
      trace, done, moved, asserted, error := RunSteps(job, world, clock, signal, trace);
    }
    assert trace[..|trace|] == trace && trace[..prepared] == opening;
    assert opening != [] ==> trace[..1] == opening[..1];
    e := Evidence(trace, connected, prepared, done, moved, |trace|, error, Refused);
  }

  method Run(job: Job, world: World, clock: Clock, signal: Signal) returns (e: Evidence)
    ensures e.status == Refused <==> !Starts(job)
    ensures e.status == Refused ==> e.trace == []
    ensures e.status != Refused ==>
              Recorded(job, signal, e) && Genuine(world, e.trace) && Reasoned(job, clock, signal, e)
  {
    hide Accepts, Asserts, Cleaned, Genuine, CleansUp, StepsPassed, Ran, Caused, StopsAt, EndsPreparation, Prepared,
         Connects;
    var m := job.manifest;
    var valid := ValidateManifest(m);
    if !valid || !Admits(job) {
      return Evidence([], false, 0, 0, false, 0, NoError, Refused);
    }
    AcceptedAsserts(m);
    var asserted;
    e, asserted := Begin(job, world, clock, signal);
    var handled := e.error != NoError && signal(e.trace, InHandler);
    var trace, clean := CleanUp(m, e.connected, e.moved, world, signal, e.trace);
    assert trace[..e.last] == e.trace;
    var escaped := handled || signal(trace, InCleanup);
    ghost var begun := e;
    e := e.(trace := trace, status := StatusOf(escaped, clean, e.error, asserted));
    UnderwayStays(job, clock, signal, begun, e);
  }
}
