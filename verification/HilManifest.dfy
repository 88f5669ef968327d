/** The test programs of the hardware-in-the-loop runner and the validation that admits them.  A JSON
    value of another type than the one expected is not part of the model. */
module HilManifest {
  import opened HilText
  import opened Prelude

  datatype Verb = Ping | CompositionStatus | PlatformStatus | SafetyStatus | GetObservation | SetSpeed | StopEndpoint

  datatype Field = Field(key: string, value: string)

  datatype Expected = Value(number: real) | Variable(name: string)

  datatype Assertion = Assertion(
    record: string, field: string, expected: Expected, tolerance: real, required: seq<Field>)

  datatype Step =
    | Sleep(id: string, seconds: real, safetyGate: bool)
    | Send(id: string, command: string, prefix: string, motion: bool, assertion: Option<Assertion>,
           timeout: Option<real>, safetyGate: bool, cleanupVerification: bool)

  datatype Kind = IntegerKind | StringKind

  /** A declared variable; what is not stated is None or false. */
  datatype Definition = Definition(
    kind: Kind, required: bool, nonzero: bool, minimum: Option<int>, maximum: Option<int>,
    example: Option<int>, hasDefault: bool)

  datatype Target = Target(endpointId: string, endpointName: string, capability: string)

  /** The observation of the standstill expects a number. */
  datatype Cleanup = Cleanup(
    stopAll: bool, verifyAck: bool, verifyStopped: bool, settle: real,
    record: string, field: string, expected: real, tolerance: real, required: seq<Field>)

  datatype Selector = Selector(
    capabilities: seq<string>, exactCount: int, inventoryCount: int, criticality: string)

  datatype Manifest = Manifest(
    schemaVersion: int, id: string, description: string, level: string, profile: string,
    evidenceClass: string, limits: seq<string>, gates: seq<string>,
    motionEnabled: bool, confirmations: seq<string>, motionVariable: string,
    variables: map<string, Definition>, target: Target,
    unloaded: bool, cutoff: bool, maxDuration: real,
    cleanup: Cleanup, selector: Option<Selector>, steps: seq<Step>)

  const MAX_DURATION: real := 300.0
  const MAX_TIMEOUT: real := 10.0

  const REQUIRED_GATES: set<string> := {"git_sha", "git_dirty", "profile", "board"}
  const REQUIRED_CONFIRMATIONS: set<string> := {"motion_authorized", "wheels_unloaded", "power_cutoff_ready"}
  const CRITICALITIES: set<string> := {"DEVELOPMENT", "OPTIONAL", "REQUIRED"}

  const HEALTHY: map<string, string> := map[
    "TYPE" := "VELOCITY_RPM", "VALID" := "1", "SOURCE" := "DEVICE_FEEDBACK",
    "ONLINE" := "1", "STALE" := "0", "HEALTH" := "HEALTHY"]

  function NameOf(verb: Verb): string {
    match verb
    case Ping => "PING"
    case CompositionStatus => "COMPOSITION_STATUS"
    case PlatformStatus => "PLATFORM_STATUS"
    case SafetyStatus => "SAFETY_STATUS"
    case GetObservation => "GET_ENDPOINT_OBSERVATION"
    case SetSpeed => "SET_ENDPOINT_SPEED"
    case StopEndpoint => "STOP_ENDPOINT"
  }

  function VerbNamed(name: string): (verb: Option<Verb>)
    ensures verb.Some? ==> name == NameOf(verb.value)
  {
    if name == "PING" then Some(Ping)
    else if name == "COMPOSITION_STATUS" then Some(CompositionStatus)
    else if name == "PLATFORM_STATUS" then Some(PlatformStatus)
    else if name == "SAFETY_STATUS" then Some(SafetyStatus)
    else if name == "GET_ENDPOINT_OBSERVATION" then Some(GetObservation)
    else if name == "SET_ENDPOINT_SPEED" then Some(SetSpeed)
    else if name == "STOP_ENDPOINT" then Some(StopEndpoint)
    else None
  }

  /** What the first word of a command asks for, in any letter case. */
  function VerbOf(command: string): Option<Verb> {
    if Words(command) == [] then None else VerbNamed(Upper(Words(command)[0]))
  }

  predicate Does(step: Step, verb: Verb) {
    step.Send? && VerbOf(step.command) == Some(verb)
  }

  /** Field names are compared in capitals; of two that differ in case only, the later one counts. */
  function Normalized(fields: seq<Field>): map<string, string> {
    if fields == [] then map[]
    else
      var last := fields[|fields| - 1];
      Normalized(fields[..|fields| - 1])[Upper(last.key) := last.value]
  }

  predicate FieldsFit(fields: seq<Field>) {
    forall i | 0 <= i < |fields| :: Identifier(fields[i].key) && fields[i].value != ""
  }

  // ------------------------------------------------------------------- the sections but the steps

  predicate IdentityFits(m: Manifest) {
    && m.schemaVersion == 1 && Identifier(m.id) && HasText(m.description)
    && m.level == "L4" && Identifier(m.profile) && m.evidenceClass == "E2"
    && m.limits != [] && (forall i | 0 <= i < |m.limits| :: HasText(m.limits[i]))
    && (set gate | gate in m.gates) == REQUIRED_GATES && |m.gates| == 4
  }

  predicate DefinitionFits(d: Definition) {
    d.kind == IntegerKind ==>
      && (d.minimum.Some? && d.maximum.Some? ==> d.minimum.value <= d.maximum.value)
      && (d.example.Some? && d.minimum.Some? ==> d.minimum.value <= d.example.value)
      && (d.example.Some? && d.maximum.Some? ==> d.example.value <= d.maximum.value)
  }

  /** The one variable that sets the speed is bounded and has to be given for every run. */
  predicate MotionFits(m: Manifest) {
    && m.motionEnabled && (set c | c in m.confirmations) == REQUIRED_CONFIRMATIONS
    && Identifier(m.motionVariable) && m.motionVariable in m.variables
    && (forall name | name in m.variables :: Identifier(name) && DefinitionFits(m.variables[name]))
    && var d := m.variables[m.motionVariable];
       && d.kind == IntegerKind && d.required && d.nonzero && !d.hasDefault
       && d.minimum.Some? && d.maximum.Some?
  }

  predicate TargetFits(t: Target) {
    && HasText(t.endpointId) && HasText(t.endpointName) && HasText(t.capability)
    && EndpointId(t.endpointId) && Identifier(t.capability) && Upper(t.capability) == "VELOCITY_RPM"
  }

  predicate SafetyFits(m: Manifest) {
    m.unloaded && m.cutoff && 0.0 < m.maxDuration <= MAX_DURATION
  }

  predicate CleanupFits(c: Cleanup) {
    && c.stopAll && c.verifyAck && c.verifyStopped && 0.0 <= c.settle <= 2.0
    && Identifier(c.record) && Identifier(c.field) && c.expected == 0.0 && 0.0 <= c.tolerance < 1.0
    && FieldsFit(c.required)
    && Upper(c.record) == "ENDPOINT_OBSERVATION" && Upper(c.field) == "RPM" && Normalized(c.required) == HEALTHY
  }

  predicate SelectorFits(s: Selector, t: Target) {
    && s.capabilities != [] && (forall i | 0 <= i < |s.capabilities| :: Identifier(s.capabilities[i]))
    && s.exactCount == 1 && s.inventoryCount == 1 && s.criticality in CRITICALITIES
    && exists i | 0 <= i < |s.capabilities| :: Upper(s.capabilities[i]) == Upper(t.capability)
  }

  predicate HeaderFits(m: Manifest) {
    && IdentityFits(m) && MotionFits(m) && TargetFits(m.target) && SafetyFits(m) && CleanupFits(m.cleanup)
    && m.selector.Some? && SelectorFits(m.selector.value, m.target) && m.steps != []
  }

  /** The bounds of the speed. */
  function Minimum(m: Manifest): int {
    if m.motionVariable in m.variables && m.variables[m.motionVariable].minimum.Some? then
      m.variables[m.motionVariable].minimum.value
    else 0
  }

  function Maximum(m: Manifest): int {
    if m.motionVariable in m.variables && m.variables[m.motionVariable].maximum.Some? then
      m.variables[m.motionVariable].maximum.value
    else 0
  }

  // ---------------------------------------------------------------------------- the four gates

  predicate GateIs(step: Step, command: string, prefix: string, record: string, field: string, value: real,
                   required: map<string, string>)
  {
    && step.Send? && step.command == command && step.prefix == prefix && step.assertion.Some?
    && step.assertion.value.record == record && step.assertion.value.field == field
    && step.assertion.value.expected == Value(value) && Normalized(step.assertion.value.required) == required
  }

  const COMPOSED: map<string, string> := map["MODE" := "ACTIVE", "OUTPUTS_INITIALIZED" := "1"]

  const PARKED: map<string, string> := map[
    "STATE" := "SAFE_IDLE", "FAULTED" := "0", "TRACE" := "0", "STREAM" := "0"]

  const SUPERVISED: map<string, string> := map["TASK" := "RUNNING", "RC_LOSS" := "0"]

  /** The contract of the k-th gate. */
  predicate GateContract(step: Step, k: nat) {
    match k
    case 0 =>
      && GateIs(step, "COMPOSITION_STATUS", "DATA COMPOSITION", "COMPOSITION", "RUNTIME_READY", 1.0, COMPOSED)
      && step.assertion.value.tolerance == 0.0
    case 1 =>
      && GateIs(step, "PLATFORM_STATUS", "DATA PLATFORM", "PLATFORM", "MOTION_ACTIVE", 0.0, PARKED)
      && step.assertion.value.tolerance == 0.0
    case 2 =>
      && GateIs(step, "SAFETY_STATUS", "DATA SAFETY", "SAFETY", "MOTOR_FAULT", 0.0, SUPERVISED)
      && step.assertion.value.tolerance == 0.0
    case 3 =>
      && GateIs(step, "GET_ENDPOINT_OBSERVATION {endpoint_id}", "DATA ENDPOINT_OBSERVATION",
                "ENDPOINT_OBSERVATION", "RPM", 0.0, HEALTHY)
      && 0.0 <= step.assertion.value.tolerance < 1.0
    case _ => false
  }

  // --------------------------------------------------------------------- one step of the validation

  /** The smallest speed other than zero that the motion variable can have. */
  function SmallestSetpoint(m: Manifest): int {
    if Minimum(m) <= 0 <= Maximum(m) then 1
    else if Minimum(m) > 0 then Minimum(m)
    else if Maximum(m) < 0 then -Maximum(m)
    else Maximum(m)
  }

  /** What the observation after the motion has to compare. */
  predicate ResponseContract(m: Manifest, a: Assertion) {
    && a.expected == Variable(m.motionVariable)
    && Upper(a.record) == "ENDPOINT_OBSERVATION" && Upper(a.field) == "RPM"
    && Normalized(a.required) == HEALTHY && a.tolerance < SmallestSetpoint(m) as real
  }

  /** Commands to the endpoint name exactly its placeholder, and the speed the one of its variable. */
  predicate WordsFit(m: Manifest, verb: Verb, words: seq<string>) {
    match verb
    case GetObservation => words == [NameOf(verb), "{endpoint_id}"]
    case StopEndpoint => words == [NameOf(verb), "{endpoint_id}"]
    case SetSpeed => words == [NameOf(verb), "{endpoint_id}", HoleOf(m.motionVariable)]
    case _ => true
  }

  const SPEED_ACKNOWLEDGED: string := "OK SET_ENDPOINT_SPEED ID:"

  /** The answers that are compared whole are prescribed. */
  predicate PrefixFits(m: Manifest, verb: Verb, prefix: string) {
    match verb
    case SetSpeed =>
      prefix == SPEED_ACKNOWLEDGED + (HoleOf("endpoint_id") + (" RPM_TARGET:" + HoleOf(m.motionVariable)))
    case StopEndpoint => prefix == "OK STOP_ENDPOINT ID:{endpoint_id}"
    case _ => prefix != ""
  }

  predicate AssertionFits(m: Manifest, a: Assertion) {
    && Identifier(a.record) && Identifier(a.field) && a.tolerance >= 0.0 && FieldsFit(a.required)
    && (a.expected.Variable? ==> a.expected.name in m.variables)
  }

  function AllowedNames(m: Manifest): set<string> {
    m.variables.Keys + {"endpoint_id"}
  }

  predicate TextsFit(m: Manifest, command: string, prefix: string) {
    && '\n' !in command && '\r' !in command && VerbOf(command).Some?
    && WordsFit(m, VerbOf(command).value, Words(command)) && PrefixFits(m, VerbOf(command).value, prefix)
    && TemplateFits(command, AllowedNames(m)) && TemplateFits(prefix, AllowedNames(m))
  }

  /** The checks of a step that need nothing but the step. */
  predicate Plain(m: Manifest, step: Step) {
    && Identifier(step.id)
    && match step
       case Sleep(id, seconds, safetyGate) => 0.0 <= seconds <= m.maxDuration
       case Send(id, command, prefix, motion, assertion, timeout, safetyGate, cleanupVerification) =>
         && TextsFit(m, command, prefix) && (motion <==> Does(step, SetSpeed))
         && (assertion.Some? ==> AssertionFits(m, assertion.value))
         && (timeout.Some? ==> 0.0 < timeout.value <= MAX_TIMEOUT)
         && (safetyGate ==> assertion.Some?)
         && (cleanupVerification ==>
               Does(step, GetObservation) && assertion.Some? && assertion.value.expected == Value(0.0))
  }

  datatype Scan = Scan(
    ids: set<string>, motions: nat, motionIndex: nat, pending: bool, responses: nat, stopped: bool,
    assertions: bool, cleanups: nat, gates: seq<nat>)

  const START: Scan := Scan({}, 0, 0, false, 0, false, false, 0, [])

  predicate IsMotion(step: Step) {
    step.Send? && step.motion
  }

  predicate IsStop(step: Step) {
    Does(step, StopEndpoint)
  }

  predicate IsCleanup(step: Step) {
    step.Send? && step.cleanupVerification
  }

  predicate IsGate(step: Step) {
    step.Send? && step.safetyGate
  }

  /** An observation that answers a pending motion. */
  predicate Answers(step: Step) {
    Does(step, GetObservation) && step.assertion.Some? && !step.cleanupVerification
  }

  /** The flags after the motion part of a step. */
  function AfterMotion(s: Scan, index: nat, step: Step): Scan {
    var moved := if IsMotion(step) then
                   s.(motions := s.motions + 1, motionIndex := index, pending := true, stopped := false)
                 else s;
    if IsStop(step) && moved.motions > 0 then moved.(stopped := true) else moved
  }

  /** Does the step fit what came before it? */
  predicate Fits(m: Manifest, s: Scan, index: nat, step: Step) {
    var moved := AfterMotion(s, index, step);
    && Plain(m, step) && step.id !in s.ids
    && (IsMotion(step) ==> !s.pending)
    && (IsStop(step) ==> !moved.pending)
    && (moved.pending && Answers(step) ==> ResponseContract(m, step.assertion.value))
    && (IsGate(step) ==> moved.motions == 0)
    && (IsCleanup(step) ==> moved.stopped)
  }

  function Scanned(s: Scan, index: nat, step: Step): Scan {
    var named := s.(ids := s.ids + {step.id});
    if step.Sleep? then named
    else
      var moved := AfterMotion(named, index, step);
      var answered := if moved.pending && Answers(step) then moved.(pending := false, responses := moved.responses + 1)
                      else moved;
      answered.(assertions := answered.assertions || step.assertion.Some?,
                gates := if step.safetyGate then answered.gates + [index] else answered.gates,
                cleanups := answered.cleanups + if step.cleanupVerification then 1 else 0)
  }

  /** The flags after the first n steps. */
  function ScanTo(steps: seq<Step>, n: nat): Scan
    requires n <= |steps|
  {
    if n == 0 then START else Scanned(ScanTo(steps, n - 1), n - 1, steps[n - 1])
  }

  /** Step i fits the flags in front of it. */
  predicate FitsAt(m: Manifest, i: nat)
    requires i < |m.steps|
  {
    Fits(m, ScanTo(m.steps, i), i, m.steps[i])
  }

  predicate AllFit(m: Manifest, n: nat)
    requires n <= |m.steps|
  {
    forall i | 0 <= i < n :: FitsAt(m, i)
  }

  /** The gates are the four steps right before the motion, each with its own contract. */
  predicate GatesFit(m: Manifest, gates: seq<nat>, motionIndex: nat) {
    && |gates| == 4 && motionIndex < |m.steps|
    && forall k | 0 <= k < 4 ::
         && gates[k] < |m.steps| && gates[k] + 4 == motionIndex + k && GateContract(m.steps[gates[k]], k)
  }

  predicate Accepts(m: Manifest) {
    && HeaderFits(m) && AllFit(m, |m.steps|)
    && var s := ScanTo(m.steps, |m.steps|);
       && s.motions == 1 && s.assertions && s.cleanups == 1 && !s.pending && s.responses > 0
       && GatesFit(m, s.gates, s.motionIndex)
  }

  // -------------------------------------------------------------------------------- the validation

  method ValidateGates(m: Manifest, gates: seq<nat>, motionIndex: nat) returns (valid: bool)
    requires motionIndex < |m.steps| && forall k | 0 <= k < |gates| :: gates[k] < |m.steps|
    ensures valid == GatesFit(m, gates, motionIndex)
  {
    if |gates| != 4 {
      return false;
    }
    for k := 0 to 4
      invariant forall i | 0 <= i < k :: GateContract(m.steps[gates[i]], i)
    {
      if !GateContract(m.steps[gates[k]], k) {
        return false;
      }
    }
    for k := 0 to 4
      invariant forall i | 0 <= i < k :: gates[i] + 4 == motionIndex + i
    {
      if gates[k] + 4 != motionIndex + k {
        return false;
      }
    }
    return true;
  }

  /** One step of the walk: the flags before and after it, and whether the step is admitted. */
  method Visit(m: Manifest, s: Scan, index: nat) returns (ok: bool, next: Scan)
    requires index < |m.steps|
    ensures ok == Fits(m, s, index, m.steps[index])
    ensures ok ==> next == Scanned(s, index, m.steps[index])
  {
    hide GateContract, ResponseContract, Plain, VerbOf;
    next := s;
    var step := m.steps[index];
    if !Plain(m, step) || step.id in next.ids {
      return false, next;
    }
    next := next.(ids := next.ids + {step.id});
    if step.Sleep? {
      return true, next;
    }
    if step.motion {
      if next.pending {
        return false, next;
      }
      next := next.(motions := next.motions + 1, motionIndex := index, pending := true, stopped := false);
    }
    var verb := VerbOf(step.command);
    if verb == Some(StopEndpoint) {
      if next.pending {
        return false, next;
      }
      if next.motions > 0 {
        next := next.(stopped := true);
      }
    }
    if step.assertion.Some? {
      next := next.(assertions := true);
      if next.pending && verb == Some(GetObservation) && !step.cleanupVerification {
        if !ResponseContract(m, step.assertion.value) {
          return false, next;
        }
        next := next.(pending := false, responses := next.responses + 1);
      }
    }
    if step.safetyGate {
      if next.motions > 0 {
        return false, next;
      }
      next := next.(gates := next.gates + [index]);
    }
    if step.cleanupVerification {
      if !next.stopped {
        return false, next;
      }
      next := next.(cleanups := next.cleanups + 1);
    }
    return true, next;
  }

  lemma {:induction false} ScannedIndices(s: Scan, index: nat, step: Step)
    requires forall k | 0 <= k < |s.gates| :: s.gates[k] < index
    requires s.motions > 0 ==> s.motionIndex < index
    ensures var next := Scanned(s, index, step);
            && (forall k | 0 <= k < |next.gates| :: next.gates[k] < index + 1)
            && (next.motions > 0 ==> next.motionIndex < index + 1)
  {
  }

  /** Walks once over the steps, with the flags and counters of the walk. */
  method ValidateManifest(m: Manifest) returns (valid: bool)
    ensures valid == Accepts(m)
  {
    hide HeaderFits, Fits, Scanned, GatesFit;
    if !HeaderFits(m) {
      return false;
    }
    var s := START;
    for index := 0 to |m.steps|
      invariant AllFit(m, index) && s == ScanTo(m.steps, index)
      invariant s.motions > 0 ==> s.motionIndex < index
      invariant forall k | 0 <= k < |s.gates| :: s.gates[k] < index
    {
      var ok, next := Visit(m, s, index);
      assert ok == FitsAt(m, index);
      if !ok {
        return false;
      }
      ScannedIndices(s, index, m.steps[index]);
      s := next;
    }
    if s.motions != 1 || !s.assertions || s.cleanups != 1 || s.pending || s.responses == 0 {
      return false;
    }
    valid := ValidateGates(m, s.gates, s.motionIndex);
  }

  // ------------------------------------------------------------------- what an accepted program is

  /** A stop of the endpoint somewhere between two steps. */
  ghost predicate StopBetween(steps: seq<Step>, low: nat, high: nat) {
    exists s: nat :: low < s < high && s < |steps| && IsStop(steps[s])
  }

  /** Neither an answer nor a stop of the endpoint between two steps. */
  predicate Silent(steps: seq<Step>, low: nat, high: nat) {
    forall i | low < i < high && i < |steps| :: !Answers(steps[i]) && !IsStop(steps[i])
  }

  /** The step at `answer` is the first to answer the motion, in the way it has to, before any stop. */
  predicate FirstAnswer(m: Manifest, motion: nat, answer: nat) {
    && motion < answer < |m.steps| && Answers(m.steps[answer])
    && ResponseContract(m, m.steps[answer].assertion.value) && Silent(m.steps, motion, answer)
  }

  ghost predicate AnsweredBefore(m: Manifest, motion: nat, n: nat) {
    exists answer: nat :: answer < n && FirstAnswer(m, motion, answer)
  }

  /** The only verification of the standstill among the first n steps, after a stop of the endpoint. */
  ghost predicate OnlyCleanup(steps: seq<Step>, motion: nat, n: nat, cleanup: nat) {
    && cleanup < n <= |steps| && IsCleanup(steps[cleanup]) && StopBetween(steps, motion, cleanup)
    && forall i | 0 <= i < n && IsCleanup(steps[i]) :: i == cleanup
  }

  ghost predicate CleanedOnce(steps: seq<Step>, motion: nat, n: nat) {
    exists cleanup: nat :: OnlyCleanup(steps, motion, n, cleanup)
  }

  /** The k-th of the four steps before the motion is the k-th gate. */
  predicate GateBefore(m: Manifest, motion: nat, k: nat)
    requires k < 4 <= motion <= |m.steps|
  {
    GateContract(m.steps[motion - 4 + k], k)
  }

  /** A program with its one motion, the first answer to it, and the one verification of the
      standstill. */
  ghost predicate Program(m: Manifest, motion: nat, answer: nat, cleanup: nat) {
    && 4 <= motion < |m.steps|
    && (forall i | 0 <= i < |m.steps| :: IsMotion(m.steps[i]) <==> i == motion)
    && (forall i | 0 <= i < |m.steps| :: IsGate(m.steps[i]) <==> motion - 4 <= i < motion)
    && (forall k | 0 <= k < 4 :: GateBefore(m, motion, k))
    && FirstAnswer(m, motion, answer)
    && OnlyCleanup(m.steps, motion, |m.steps|, cleanup)
  }

  ghost predicate AllPlain(m: Manifest) {
    && (forall i | 0 <= i < |m.steps| :: Plain(m, m.steps[i]))
    && forall i, j | 0 <= i < j < |m.steps| :: m.steps[i].id != m.steps[j].id
  }

  // ------------------------------------------------------------------------ what the flags mean

  ghost predicate Meaning(m: Manifest, s: Scan, n: nat)
    requires n <= |m.steps|
  {
    && (s.motions == 0 ==> !s.pending && !s.stopped && s.cleanups == 0)
    && (s.motions == 0 ==> forall i | 0 <= i < n :: !IsMotion(m.steps[i]))
    && (forall i: nat | i < n && IsGate(m.steps[i]) :: i in s.gates)
    && (forall g | g in s.gates :: g < n && IsGate(m.steps[g]))
    && (s.cleanups == 0 ==> forall i | 0 <= i < n :: !IsCleanup(m.steps[i]))
    && (s.motions == 1 ==>
          && s.motionIndex < n
          && (forall i | 0 <= i < n :: IsMotion(m.steps[i]) <==> i == s.motionIndex)
          && (s.pending ==> Silent(m.steps, s.motionIndex, n))
          && (!s.pending ==> AnsweredBefore(m, s.motionIndex, n))
          && (s.stopped ==> StopBetween(m.steps, s.motionIndex, n))
          && (s.cleanups == 1 ==> CleanedOnce(m.steps, s.motionIndex, n)))
  }

  lemma {:induction false} Widen(m: Manifest, low: nat, n: nat)
    requires n < |m.steps|
    ensures StopBetween(m.steps, low, n) ==> StopBetween(m.steps, low, n + 1)
    ensures IsStop(m.steps[n]) && low < n ==> StopBetween(m.steps, low, n + 1)
    ensures Silent(m.steps, low, n) && !Answers(m.steps[n]) && !IsStop(m.steps[n]) ==> Silent(m.steps, low, n + 1)
    ensures AnsweredBefore(m, low, n) ==> AnsweredBefore(m, low, n + 1)
    ensures FirstAnswer(m, low, n) ==> AnsweredBefore(m, low, n + 1)
    ensures CleanedOnce(m.steps, low, n) && !IsCleanup(m.steps[n]) ==> CleanedOnce(m.steps, low, n + 1)
  {
    hide ResponseContract, IsStop, IsCleanup, Answers;
    if cleanup: nat :| OnlyCleanup(m.steps, low, n, cleanup) && !IsCleanup(m.steps[n]) {
      assert OnlyCleanup(m.steps, low, n + 1, cleanup);
    }
  }

  lemma {:induction false} FirstCleanup(steps: seq<Step>, low: nat, n: nat)
    requires n < |steps| && IsCleanup(steps[n]) && StopBetween(steps, low, n)
    requires forall i | 0 <= i < n :: !IsCleanup(steps[i])
    ensures CleanedOnce(steps, low, n + 1)
  {
    assert OnlyCleanup(steps, low, n + 1, n);
  }

  lemma {:induction false} StepKeepsMeaning(m: Manifest, s: Scan, n: nat)
    requires n < |m.steps| && Meaning(m, s, n) && Fits(m, s, n, m.steps[n]) && Scanned(s, n, m.steps[n]).motions <= 1
    ensures Meaning(m, Scanned(s, n, m.steps[n]), n + 1)
  {
    hide StopBetween, AnsweredBefore, CleanedOnce, ResponseContract, TextsFit, AssertionFits, VerbOf, Identifier;
    Widen(m, s.motionIndex, n);
    var step := m.steps[n];
    if IsCleanup(step) && s.cleanups == 0 && s.motions == 1 {
      FirstCleanup(m.steps, s.motionIndex, n);
    }
  }

  lemma {:induction false} MotionsGrow(steps: seq<Step>, i: nat, n: nat)
    requires i <= n <= |steps|
    ensures ScanTo(steps, i).motions <= ScanTo(steps, n).motions
  {
    if i < n {
      MotionsGrow(steps, i, n - 1);
    }
  }

  lemma {:induction false} StartHasMeaning(m: Manifest)
    ensures Meaning(m, START, 0)
  {
    hide StopBetween, AnsweredBefore, CleanedOnce;
  }

  lemma {:induction false} ScanHasMeaning(m: Manifest, n: nat)
    requires n <= |m.steps| && AllFit(m, n) && ScanTo(m.steps, n).motions <= 1
    ensures Meaning(m, ScanTo(m.steps, n), n)
  {
    hide Meaning, Fits, Scanned;
    if n == 0 {
      StartHasMeaning(m);
    } else {
      MotionsGrow(m.steps, n - 1, n);
      ScanHasMeaning(m, n - 1);
      assert FitsAt(m, n - 1);
      StepKeepsMeaning(m, ScanTo(m.steps, n - 1), n - 1);
    }
  }

  lemma {:induction false} FitsPlain(m: Manifest, s: Scan, i: nat)
    requires i < |m.steps| && Fits(m, s, i, m.steps[i])
    ensures Plain(m, m.steps[i]) && m.steps[i].id !in s.ids
  {
    hide Plain;
  }

  /** The walk knows the ids of all steps behind it, and nothing else. */
  lemma {:induction false} IdsOfWalk(steps: seq<Step>, n: nat)
    requires n <= |steps|
    ensures forall id :: id in ScanTo(steps, n).ids <==> exists i | 0 <= i < n :: steps[i].id == id
  {
    hide VerbOf;
    if n > 0 {
      IdsOfWalk(steps, n - 1);
      assert ScanTo(steps, n).ids == ScanTo(steps, n - 1).ids + {steps[n - 1].id};
    }
  }

  /** An admitted program sets one speed, directly after its four gates; the first answer to it comes
      before any stop of the endpoint, and the standstill is verified once, after such a stop. */
  lemma {:induction false} AcceptedIsProgram(m: Manifest) returns (motion: nat, answer: nat, cleanup: nat)
    requires Accepts(m)
    ensures AllPlain(m) && Program(m, motion, answer, cleanup)
  {
    hide StopBetween, ResponseContract, GateContract, ScanTo, Fits, HeaderFits, Plain, FirstAnswer, OnlyCleanup;
    var n := |m.steps|;
    var s := ScanTo(m.steps, n);
    motion := s.motionIndex;
    ScanHasMeaning(m, n);
    assert s.gates[0] + 4 == motion;
    forall k | 0 <= k < 4 ensures GateBefore(m, motion, k) {
      assert s.gates[k] == motion - 4 + k;
    }
    forall i | 0 <= i < n ensures IsGate(m.steps[i]) <==> motion - 4 <= i < motion {
      if IsGate(m.steps[i]) {
        var k :| 0 <= k < |s.gates| && s.gates[k] == i;
      }
      if motion - 4 <= i < motion {
        assert s.gates[i - (motion - 4)] == i;
        assert i in s.gates;
      }
    }
    forall j | 0 <= j < n ensures Plain(m, m.steps[j]) && forall i | 0 <= i < j :: m.steps[i].id != m.steps[j].id {
      assert FitsAt(m, j);
      FitsPlain(m, ScanTo(m.steps, j), j);
      IdsOfWalk(m.steps, j);
    }
    answer :| answer < n && FirstAnswer(m, motion, answer);
    cleanup :| OnlyCleanup(m.steps, motion, n, cleanup);
  }

  // ------------------------------------------------------------------ every such program is admitted

  /** The gates among the first n steps. */
  function GatesBelow(motion: nat, n: nat): seq<nat>
    requires 4 <= motion
  {
    if n <= motion - 4 then []
    else GatesBelow(motion, n - 1) + if n <= motion then [n - 1] else []
  }

  lemma {:induction false} AllGates(motion: nat, n: nat)
    requires 4 <= motion <= n
    ensures GatesBelow(motion, n) == [motion - 4, motion - 3, motion - 2, motion - 1]
  {
    if n > motion {
      AllGates(motion, n - 1);
    } else {
      assert GatesBelow(motion, motion - 4) == [];
      assert GatesBelow(motion, motion - 3) == [motion - 4];
      assert GatesBelow(motion, motion - 2) == [motion - 4, motion - 3];
      assert GatesBelow(motion, motion - 1) == [motion - 4, motion - 3, motion - 2];
    }
  }

  /** The flags after n steps of a program. */
  ghost predicate FlagsAt(m: Manifest, s: Scan, n: nat, motion: nat, answer: nat, cleanup: nat)
    requires 4 <= motion
  {
    && s.motions == (if n > motion then 1 else 0) && (n > motion ==> s.motionIndex == motion)
    && (s.pending <==> motion < n <= answer)
    && (s.responses > 0 <==> n > answer)
    && (s.stopped <==> n > motion && StopBetween(m.steps, motion, n))
    && s.cleanups == (if n > cleanup then 1 else 0)
    && s.gates == GatesBelow(motion, n)
    && (forall id | id in s.ids :: exists i | 0 <= i < n && i < |m.steps| :: m.steps[i].id == id)
    && (n > motion - 4 ==> s.assertions)
  }

  lemma {:induction false} StopsUpTo(steps: seq<Step>, low: nat, n: nat)
    requires n < |steps|
    ensures StopBetween(steps, low, n + 1) <==> StopBetween(steps, low, n) || (low < n && IsStop(steps[n]))
    ensures !StopBetween(steps, low, low + 1)
  {
    hide IsStop;
  }

  lemma {:induction false} ProgramStep(m: Manifest, s: Scan, n: nat, motion: nat, answer: nat, cleanup: nat)
    requires n < |m.steps| && AllPlain(m) && Program(m, motion, answer, cleanup)
    requires FlagsAt(m, s, n, motion, answer, cleanup)
    ensures Fits(m, s, n, m.steps[n])
    ensures FlagsAt(m, Scanned(s, n, m.steps[n]), n + 1, motion, answer, cleanup)
  {
    hide StopBetween, ResponseContract, GateContract, HeaderFits, TextsFit, AssertionFits, VerbOf, Identifier;
    StopsUpTo(m.steps, motion, n);
    assert Plain(m, m.steps[n]);
    assert IsCleanup(m.steps[n]) ==> n == cleanup;
    CleanupIsLate(m.steps, motion, cleanup);
    if motion - 4 <= n < motion {
      assert IsGate(m.steps[n]);
    }
  }

  lemma {:induction false} CleanupIsLate(steps: seq<Step>, motion: nat, cleanup: nat)
    requires StopBetween(steps, motion, cleanup)
    ensures motion < cleanup
  {
  }

  lemma {:induction false} ProgramScans(m: Manifest, n: nat, motion: nat, answer: nat, cleanup: nat)
    requires n <= |m.steps| && AllPlain(m) && Program(m, motion, answer, cleanup)
    ensures AllFit(m, n) && FlagsAt(m, ScanTo(m.steps, n), n, motion, answer, cleanup)
  {
    hide Program, AllPlain, Fits, Scanned;
    Sized(m, motion, answer, cleanup);
    if n == 0 {
      hide StopBetween;
    } else {
      ProgramScans(m, n - 1, motion, answer, cleanup);
      ProgramStep(m, ScanTo(m.steps, n - 1), n - 1, motion, answer, cleanup);
      hide FlagsAt;
    }
  }

  lemma {:induction false} Sized(m: Manifest, motion: nat, answer: nat, cleanup: nat)
    requires Program(m, motion, answer, cleanup)
    ensures 4 <= motion < answer < |m.steps| && motion < cleanup < |m.steps|
  {
    hide FirstAnswer;
    CleanupIsLate(m.steps, motion, cleanup);
    assert FirstAnswer(m, motion, answer);
    AnswerIsLate(m, motion, answer);
  }

  lemma {:induction false} AnswerIsLate(m: Manifest, motion: nat, answer: nat)
    requires FirstAnswer(m, motion, answer)
    ensures motion < answer < |m.steps|
  {
  }

  lemma {:induction false} ProgramIsAccepted(m: Manifest, motion: nat, answer: nat, cleanup: nat)
    requires HeaderFits(m) && AllPlain(m) && Program(m, motion, answer, cleanup)
    ensures Accepts(m)
  {
    hide HeaderFits, AllPlain, AllFit, FirstAnswer, OnlyCleanup, GateContract, StopBetween, ScanTo;
    var n := |m.steps|;
    Sized(m, motion, answer, cleanup);
    ProgramScans(m, n, motion, answer, cleanup);
    AllGates(motion, n);
    var gates := ScanTo(m.steps, n).gates;
    forall k | 0 <= k < 4 ensures gates[k] + 4 == motion + k && GateContract(m.steps[gates[k]], k) {
      assert GateBefore(m, motion, k);
    }
  }

  /** The walk over the steps admits exactly the manifests whose header and single steps are well
      formed and whose steps are such a program. */
  lemma {:induction false} AcceptsIff(m: Manifest)
    ensures Accepts(m) <==>
              && HeaderFits(m) && AllPlain(m)
              && exists motion: nat, answer: nat, cleanup: nat :: Program(m, motion, answer, cleanup)
  {
    hide AllPlain, Program, AllFit, GatesFit;
    if Accepts(m) {
      var motion, answer, cleanup := AcceptedIsProgram(m);
    } else if motion: nat, answer: nat, cleanup: nat :|
      HeaderFits(m) && AllPlain(m) && Program(m, motion, answer, cleanup)
    {
      ProgramIsAccepted(m, motion, answer, cleanup);
    }
  }

  /** It is the least size of a speed other than zero within the bounds, if there is any such speed. */
  lemma {:induction false} SmallestIs(m: Manifest, speed: int)
    requires Minimum(m) <= speed <= Maximum(m) && speed != 0
    ensures Minimum(m) < 0 || Maximum(m) > 0
    ensures SmallestSetpoint(m) > 0 && (speed >= SmallestSetpoint(m) || -speed >= SmallestSetpoint(m))
    ensures (Minimum(m) < 0 < Maximum(m) || Minimum(m) == 0 || Maximum(m) == 0 ==> SmallestSetpoint(m) == 1)
    ensures (Minimum(m) > 0 ==> SmallestSetpoint(m) == Minimum(m))
    ensures (Maximum(m) < 0 ==> SmallestSetpoint(m) == -Maximum(m))
  {
  }

  /** An endpoint that did not move cannot pass for one that did: the tolerance of the response keeps
      zero away from every speed the variable may have. */
  lemma {:induction false} StandstillIsNoAnswer(m: Manifest, a: Assertion, speed: int)
    requires ResponseContract(m, a) && Minimum(m) <= speed <= Maximum(m) && speed != 0
    ensures Abs(0.0 - speed as real) > a.tolerance
  {
  }
}
