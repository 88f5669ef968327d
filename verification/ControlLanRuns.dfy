/** What the session guarantees over every sequence of packets and authority polls, whatever the
    application accepts. */
module ControlLanRuns {
  import opened MachineIntegers
  import opened Prelude
  import opened ControlLan
  import RI = RcLanInterlock

  datatype Step = Poll(authority: Authority, timestamp: U64) | Packet(event: Event, authority: Authority)

  function Next(s: System, step: Step, callback: Callback): System {
    match step
    case Poll(authority, timestamp) => Enforced(s, authority, timestamp, callback)
    case Packet(event, authority) => Handled(s, event, authority, callback).0
  }

  ghost predicate IsRun(callback: Callback, states: seq<System>, steps: seq<Step>) {
    && |states| == |steps| + 1
    && states[0] == INITIAL
    && forall i | 0 <= i < |steps| :: states[i + 1] == Next(states[i], steps[i], callback)
  }

  predicate IsStop(call: Call) {
    call.event.action == Stop || call.event.action == Disarm
  }

  predicate AcceptedArm(call: Call) {
    call.event.action == Arm && call.accepted
  }

  // ----------------------------------------------------------------------- what the log promises

  /** The ARM at a is the one the call at p belongs to: accepted, same stream, same authority epoch,
      nothing but calls of this stream since, and every accepted one of them with a lower sequence. */
  ghost predicate ArmFor(log: seq<Call>, a: nat, p: nat) {
    && a < p < |log| && AcceptedArm(log[a])
    && log[a].event.stream == log[p].event.stream
    && log[a].authority.lanAllowed && log[p].authority.lanAllowed
    && log[a].authority.epoch == log[p].authority.epoch
    && forall q | a <= q < p ::
         && !IsStop(log[q]) && log[q].event.stream == log[p].event.stream
         && (log[q].accepted ==> log[q].event.sequence < log[p].event.sequence)
  }

  ghost predicate CommandsHaveArms(log: seq<Call>) {
    forall p: nat | p < |log| && log[p].event.action == Command :: exists a: nat :: ArmFor(log, a, p)
  }

  /** Between an accepted ARM and an ARM of another stream there is a STOP or DISARM. */
  ghost predicate SwitchesAreStopped(log: seq<Call>) {
    forall p: nat, q: nat | p < q < |log| && AcceptedArm(log[p]) && log[q].event.action == Arm
                            && log[p].event.stream != log[q].event.stream ::
      exists r: nat :: p < r < q && IsStop(log[r])
  }

  /** The live stream of the session was started by the ARM at a, and the log since then is its own. */
  ghost predicate StartedAt(s: System, a: nat) {
    && a < |s.log| && AcceptedArm(s.log[a])
    && (forall p | a <= p < |s.log| ::
          && !IsStop(s.log[p]) && s.log[p].event.stream == s.session.stream
          && s.log[p].authority == Authority(true, s.session.epoch)
          && (s.log[p].accepted ==> s.log[p].event.sequence <= s.session.lastSequence))
  }

  ghost predicate Linked(s: System) {
    && (s.session.active ==> exists a: nat :: StartedAt(s, a))
    && (!s.session.active ==> forall p: nat | p < |s.log| && AcceptedArm(s.log[p]) ::
          exists r: nat :: p < r < |s.log| && IsStop(s.log[r]))
  }

  /** The call at r is the first stop after p. */
  predicate FirstStop(log: seq<Call>, p: nat, r: nat) {
    p < r < |log| && IsStop(log[r]) && forall i | p < i < r :: !IsStop(log[i])
  }

  /** A STOP of the session's own is for the stream of the last accepted ARM before it. */
  ghost predicate OwnStopsMatch(log: seq<Call>) {
    forall p: nat, r: nat | FirstStop(log, p, r) && AcceptedArm(log[p]) && log[r].own ::
      log[r].event.action == Stop && log[r].event.stream == log[p].event.stream
  }

  ghost predicate Invariant(s: System) {
    Linked(s) && CommandsHaveArms(s.log) && SwitchesAreStopped(s.log) && OwnStopsMatch(s.log)
  }

  lemma {:induction false} ArmForStays(log: seq<Call>, call: Call)
    requires CommandsHaveArms(log)
    requires call.event.action == Command ==> exists a: nat :: ArmFor(log + [call], a, |log|)
    ensures CommandsHaveArms(log + [call])
  {
    var longer := log + [call];
    forall p: nat | p < |longer| && longer[p].event.action == Command ensures exists a: nat :: ArmFor(longer, a, p) {
      if p < |log| {
        var a: nat :| ArmFor(log, a, p);
        assert ArmFor(longer, a, p);
      }
    }
  }

  lemma {:induction false} SwitchesStay(log: seq<Call>, call: Call)
    requires SwitchesAreStopped(log)
    requires call.event.action == Arm ==>
               forall p: nat | p < |log| && AcceptedArm(log[p]) && log[p].event.stream != call.event.stream ::
                 exists r: nat :: p < r < |log| && IsStop(log[r])
    ensures SwitchesAreStopped(log + [call])
  {
    var longer := log + [call];
    forall p: nat, q: nat | p < q < |longer| && AcceptedArm(longer[p]) && longer[q].event.action == Arm
                            && longer[p].event.stream != longer[q].event.stream
      ensures exists r: nat :: p < r < q && IsStop(longer[r])
    {
      if q < |log| {
        assert AcceptedArm(log[p]);
        var r: nat :| p < r < q && IsStop(log[r]);
        assert IsStop(longer[r]);
      } else {
        assert AcceptedArm(log[p]);
        var r: nat :| p < r < |log| && IsStop(log[r]);
        assert IsStop(longer[r]);
      }
    }
  }

  /** The first stop after an accepted ARM finds its stream still live. */
  lemma {:induction false} StillLive(s: System, p: nat)
    requires Linked(s) && SwitchesAreStopped(s.log) && s.session.active
    requires p < |s.log| && AcceptedArm(s.log[p]) && forall i | p < i < |s.log| :: !IsStop(s.log[i])
    ensures s.log[p].event.stream == s.session.stream
  {
    var a: nat :| StartedAt(s, a);
    if p < a {
      assert AcceptedArm(s.log[a]);
    }
  }

  lemma {:induction false} OwnStopsStay(s: System, call: Call)
    requires Linked(s) && SwitchesAreStopped(s.log) && OwnStopsMatch(s.log)
    requires call.own ==> call.event.action == Stop && s.session.active && call.event.stream == s.session.stream
    ensures OwnStopsMatch(s.log + [call])
  {
    hide Linked, SwitchesAreStopped, AcceptedArm;
    var longer := s.log + [call];
    forall p: nat, r: nat | FirstStop(longer, p, r) && AcceptedArm(longer[p]) && longer[r].own
      ensures longer[r].event.action == Stop && longer[r].event.stream == longer[p].event.stream
    {
      forall i | p < i < |s.log| ensures longer[i] == s.log[i] {}
      if r < |s.log| {
        assert FirstStop(s.log, p, r);
      } else {
        StillLive(s, p);
      }
    }
  }

  /** A stop call followed by forgetting the stream. */
  lemma {:induction false} StopKeepsInvariant(
    s: System, event: Event, authority: Authority, own: bool, callback: Callback, t: System)
    requires Invariant(s) && (event.action == Stop || event.action == Disarm)
    requires own ==> event.action == Stop && s.session.active && event.stream == s.session.stream
    requires t == Called(s, event, authority, own, callback).(session := Retired(s.session))
    ensures Invariant(t) && !t.session.active
  {
    var call := t.log[|s.log|];
    assert t.log == s.log + [call] && IsStop(call);
    ArmForStays(s.log, call);
    SwitchesStay(s.log, call);
    OwnStopsStay(s, call);
    hide CommandsHaveArms, SwitchesAreStopped, OwnStopsMatch;
    forall p: nat | p < |t.log| && AcceptedArm(t.log[p])
      ensures exists r: nat :: p < r < |t.log| && IsStop(t.log[r])
    {
      assert IsStop(t.log[|s.log|]);
    }
  }

  /** Every accepted ARM of another stream has been followed by a stop. */
  lemma {:induction false} OthersAreStopped(s: System, stream: U64, p: nat)
    requires Invariant(s) && (s.session.active ==> s.session.stream == stream)
    requires p < |s.log| && AcceptedArm(s.log[p]) && s.log[p].event.stream != stream
    ensures exists r: nat :: p < r < |s.log| && IsStop(s.log[r])
  {
    if s.session.active {
      var a: nat :| StartedAt(s, a);
      assert SwitchesAreStopped(s.log);
      assert p < a;
      var r: nat :| p < r < a && IsStop(s.log[r]);
    }
  }

  /** An ARM or COMMAND that may be delivered. */
  predicate Deliverable(s: Session, event: Event, authority: Authority) {
    && (event.action == Arm || event.action == Command)
    && authority.lanAllowed && (s.active ==> s.epoch == authority.epoch)
    && OrderCheck(s, event) == Accepted && !Switches(s, event)
  }

  lemma {:induction false} DeliveryIsLinked(s: System, event: Event, authority: Authority, callback: Callback)
    requires Invariant(s) && Deliverable(s.session, event, authority)
    ensures Linked(Delivered(s, event, authority, callback))
  {
    var t := Delivered(s, event, authority, callback);
    if t.session.active {
      if s.session.active {
        var a: nat :| StartedAt(s, a);
        assert StartedAt(t, a);
      } else {
        assert StartedAt(t, |s.log|);
      }
    } else {
      forall p: nat | p < |t.log| && AcceptedArm(t.log[p])
        ensures exists r: nat :: p < r < |t.log| && IsStop(t.log[r])
      {
        assert AcceptedArm(s.log[p]);
        var r: nat :| p < r < |s.log| && IsStop(s.log[r]);
        assert IsStop(t.log[r]);
      }
    }
  }

  lemma {:induction false} DeliveryKeepsInvariant(s: System, event: Event, authority: Authority, callback: Callback)
    requires Invariant(s) && Deliverable(s.session, event, authority)
    ensures Invariant(Delivered(s, event, authority, callback))
  {
    var t := Delivered(s, event, authority, callback);
    var call := Call(event, callback(s.log, event), authority, false);
    assert t.log == s.log + [call];
    DeliveryIsLinked(s, event, authority, callback);
    OwnStopsStay(s, call);
    if event.action == Command {
      var a: nat :| StartedAt(s, a);
      assert ArmFor(t.log, a, |s.log|);
    }
    ArmForStays(s.log, call);
    forall p: nat | p < |s.log| && AcceptedArm(s.log[p]) && s.log[p].event.stream != event.stream && event.action == Arm
      ensures exists r: nat :: p < r < |s.log| && IsStop(s.log[r])
    {
      OthersAreStopped(s, event.stream, p);
    }
    SwitchesStay(s.log, call);
    hide Linked, CommandsHaveArms, SwitchesAreStopped, OwnStopsMatch;
  }

  lemma {:induction false} EnforcedKeepsInvariant(s: System, authority: Authority, timestamp: U64, callback: Callback)
    requires Invariant(s)
    ensures var t := Enforced(s, authority, timestamp, callback);
            Invariant(t) && (t.session.active ==> authority.lanAllowed && t.session.epoch == authority.epoch)
  {
    hide Invariant;
    if Revokes(s.session, authority) {
      StopKeepsInvariant(s, StopFor(s.session, timestamp), authority, true, callback,
                         Enforced(s, authority, timestamp, callback));
    }
  }

  lemma {:induction false} HandledKeepsInvariant(s: System, event: Event, authority: Authority, callback: Callback)
    requires Invariant(s)
    ensures Invariant(Handled(s, event, authority, callback).0)
  {
    hide Invariant;
    EnforcedKeepsInvariant(s, authority, event.timestamp, callback);
    var checked := Enforced(s, authority, event.timestamp, callback);
    hide Enforced;
    var ready := Switched(checked, event, authority, callback);
    if Switches(checked.session, event) {
      StopKeepsInvariant(checked, StopFor(checked.session, event.timestamp), authority, true, callback, ready);
    }
    if event.action == Stop || event.action == Disarm {
      StopKeepsInvariant(ready, event, authority, false, callback, Delivered(ready, event, authority, callback));
    } else if Deliverable(ready.session, event, authority) {
      DeliveryKeepsInvariant(ready, event, authority, callback);
    }
  }

  lemma {:induction false} RunKeepsInvariant(callback: Callback, states: seq<System>, steps: seq<Step>, n: nat)
    requires IsRun(callback, states, steps) && n < |states|
    ensures Invariant(states[n])
  {
    if n == 0 {
      assert Invariant(INITIAL);
    } else {
      RunKeepsInvariant(callback, states, steps, n - 1);
      hide Invariant;
      var s, step := states[n - 1], steps[n - 1];
      match step
      case Poll(authority, timestamp) => EnforcedKeepsInvariant(s, authority, timestamp, callback);
      case Packet(event, authority) => HandledKeepsInvariant(s, event, authority, callback);
    }
  }

  /** Every COMMAND that reaches the application is on a stream that an accepted ARM started, with a
      sequence above every accepted one since, with the LAN allowed, and in the authority epoch of
      that ARM. */
  lemma {:induction false} CommandReachesArmedStream(
    callback: Callback, states: seq<System>, steps: seq<Step>, n: nat, p: nat) returns (a: nat)
    requires IsRun(callback, states, steps) && n < |states|
    requires p < |states[n].log| && states[n].log[p].event.action == Command
    ensures ArmFor(states[n].log, a, p)
  {
    RunKeepsInvariant(callback, states, steps, n);
    a :| ArmFor(states[n].log, a, p);
  }

  /** So no sequence number of an armed stream is accepted twice. */
  lemma {:induction false} NoCommandIsReplayed(
    callback: Callback, states: seq<System>, steps: seq<Step>, n: nat, p: nat, q: nat)
    requires IsRun(callback, states, steps) && n < |states| && p < q < |states[n].log|
    requires var log := states[n].log;
             && log[p].event.action == Command && log[q].event.action == Command
             && log[p].accepted && log[p].event.stream == log[q].event.stream
             && log[p].event.sequence >= log[q].event.sequence
    ensures exists a: nat ::
              && p < a < q && AcceptedArm(states[n].log[a])
              && states[n].log[a].event.stream == states[n].log[q].event.stream
  {
    var a := CommandReachesArmedStream(callback, states, steps, n, q);
    hide IsRun;
    assert p < a;
  }

  /** One step of a packet adds, besides STOP calls of the session's own, at most the packet's own event. */
  lemma {:induction false} StepCalls(s: System, step: Step, callback: Callback, r: nat)
    requires |s.log| <= r < |Next(s, step, callback).log|
    ensures var call := Next(s, step, callback).log[r];
            call.authority == step.authority && (!call.own ==> step == Packet(call.event, call.authority))
  {
    hide Committed, OrderCheck;
  }

  lemma {:induction false} LogGrows(s: System, step: Step, callback: Callback)
    ensures s.log <= Next(s, step, callback).log
  {
    hide Committed, OrderCheck;
  }

  /** A call that is not the session's own is the event of a client's packet, with the authority that was
      read for that packet. */
  lemma {:induction false} CallIsFromPacket(
    callback: Callback, states: seq<System>, steps: seq<Step>, n: nat, r: nat) returns (k: nat)
    requires IsRun(callback, states, steps) && n < |states| && r < |states[n].log| && !states[n].log[r].own
    ensures k < n && |states[k].log| <= r < |states[k + 1].log|
    ensures steps[k] == Packet(states[n].log[r].event, states[n].log[r].authority)
  {
    hide Next;
    LogGrows(states[n - 1], steps[n - 1], callback);
    if r < |states[n - 1].log| {
      k := CallIsFromPacket(callback, states, steps, n - 1, r);
    } else {
      k := n - 1;
      StepCalls(states[k], steps[k], callback, r);
    }
  }

  lemma {:induction false} FirstOfStops(log: seq<Call>, p: nat, q: nat) returns (r: nat)
    requires p < q < |log| && IsStop(log[q])
    ensures r <= q && FirstStop(log, p, r)
    decreases q
  {
    r := q;
    if i: nat :| p < i < q && IsStop(log[i]) {
      r := FirstOfStops(log, p, i);
    }
  }

  /** A new stream is never armed on top of a live one: the first stop after the ARM of the old stream
      comes before it, and is either the session's own STOP for exactly the old stream, or the STOP or
      DISARM packet of a client, handled in step k. */
  lemma {:induction false} SwitchIsStopped(
    callback: Callback, states: seq<System>, steps: seq<Step>, n: nat, p: nat, q: nat) returns (r: nat, k: nat)
    requires IsRun(callback, states, steps) && n < |states| && p < q < |states[n].log|
    requires var log := states[n].log;
             AcceptedArm(log[p]) && log[q].event.action == Arm && log[p].event.stream != log[q].event.stream
    ensures r < q && FirstStop(states[n].log, p, r)
    ensures var log := states[n].log;
            if log[r].own then log[r].event.action == Stop && log[r].event.stream == log[p].event.stream
            else k < n && steps[k] == Packet(log[r].event, log[r].authority)
  {
    RunKeepsInvariant(callback, states, steps, n);
    var log := states[n].log;
    var s: nat :| p < s < q && IsStop(log[s]);
    hide IsRun;
    r := FirstOfStops(log, p, s);
    k := 0;
    if !log[r].own {
      k := CallIsFromPacket(callback, states, steps, n, r);
    }
  }

  /** Within one packet: an ARM that meets a live stream of another name makes exactly a STOP call for
      the old stream, and the ARM call only if that STOP was accepted. */
  lemma {:induction false} SwitchInOnePacket(s: System, event: Event, authority: Authority, callback: Callback)
    requires Switches(s.session, event) && authority.lanAllowed && s.session.epoch == authority.epoch
    ensures var stop := StopFor(s.session, event.timestamp);
            var log := Handled(s, event, authority, callback).0.log;
            if callback(s.log, stop) then
              var stopped := s.log + [Call(stop, true, authority, true)];
              log == stopped + [Call(event, callback(stopped, event), authority, false)]
            else log == s.log + [Call(stop, false, authority, true)]
  {
  }

  // ---------------------------------------------------------------------------------- the gaps

  /** What the log says about the sequence numbers: the live stream's first and last accepted number
      and how many were accepted, and the numbers left out in the streams that are over. */
  datatype Account = Account(open: bool, stream: U64, first: nat, last: nat, count: nat, finished: int)

  function Skipped(a: Account): int {
    if a.open then a.last - a.first + 1 - a.count else 0
  }

  function Total(a: Account): int {
    a.finished + Skipped(a)
  }

  function Entered(a: Account, call: Call): Account {
    if IsStop(call) then Account(false, 0, 0, 0, 0, Total(a))
    else if !call.accepted then a
    else if a.open && a.stream == call.event.stream then a.(last := call.event.sequence, count := a.count + 1)
    else if call.event.action == Arm then
      Account(true, call.event.stream, call.event.sequence, call.event.sequence, 1, Total(a))
    else a
  }

  function AccountOf(log: seq<Call>): Account {
    if log == [] then Account(false, 0, 0, 0, 0, 0) else Entered(AccountOf(log[..|log| - 1]), log[|log| - 1])
  }

  /** The session and the account of its log agree. */
  predicate Balanced(s: System) {
    var a := AccountOf(s.log);
    && a.open == s.session.active && a.finished >= 0
    && (a.open ==> a.stream == s.session.stream && a.last == s.session.lastSequence && Skipped(a) >= 0)
    && s.session.gaps == Min(U32_MAX, Total(a))
  }

  lemma {:induction false} OneMoreEntry(s: System, event: Event, authority: Authority, own: bool, callback: Callback)
    ensures AccountOf(Called(s, event, authority, own, callback).log) ==
              Entered(AccountOf(s.log), Call(event, callback(s.log, event), authority, own))
  {
    var call := Call(event, callback(s.log, event), authority, own);
    assert (s.log + [call])[..|s.log|] == s.log;
  }

  /** Saturating each gap and saturating the sum is the same as saturating once. */
  lemma {:induction false} SaturateOnce(total: int, previous: U64, incoming: U64)
    requires total >= 0 && incoming > previous
    ensures SaturatingAdd(Min(U32_MAX, total), GapCount(previous, incoming))
            == Min(U32_MAX, total + incoming - previous - 1)
  {
  }

  lemma {:induction false} StopBalances(
    s: System, event: Event, authority: Authority, own: bool, callback: Callback, t: System)
    requires Balanced(s) && (event.action == Stop || event.action == Disarm)
    requires t == Called(s, event, authority, own, callback).(session := Retired(s.session))
    ensures Balanced(t)
  {
    hide AccountOf;
    OneMoreEntry(s, event, authority, own, callback);
  }

  lemma {:induction false} DeliveryBalances(s: System, event: Event, authority: Authority, callback: Callback)
    requires Balanced(s) && Deliverable(s.session, event, authority)
    ensures Balanced(Delivered(s, event, authority, callback))
  {
    hide AccountOf;
    OneMoreEntry(s, event, authority, false, callback);
    if s.session.active {
      SaturateOnce(Total(AccountOf(s.log)), s.session.lastSequence, event.sequence);
    }
    hide GapCount, SaturatingAdd;
    NoGap(s.session.gaps);
  }

  lemma {:induction false} NoGap(gaps: U32)
    ensures SaturatingAdd(gaps, 0) == gaps
  {
  }

  lemma {:induction false} NextBalances(s: System, step: Step, callback: Callback)
    requires Balanced(s)
    ensures Balanced(Next(s, step, callback))
  {
    hide Balanced;
    var authority := step.authority;
    var timestamp := if step.Poll? then step.timestamp else step.event.timestamp;
    var checked := Enforced(s, authority, timestamp, callback);
    if Revokes(s.session, authority) {
      StopBalances(s, StopFor(s.session, timestamp), authority, true, callback, checked);
    }
    if step.Packet? {
      var event := step.event;
      var ready := Switched(checked, event, authority, callback);
      if Switches(checked.session, event) {
        StopBalances(checked, StopFor(checked.session, event.timestamp), authority, true, callback, ready);
      }
      if event.action == Stop || event.action == Disarm {
        StopBalances(ready, event, authority, false, callback, Delivered(ready, event, authority, callback));
      } else if Deliverable(ready.session, event, authority) {
        DeliveryBalances(ready, event, authority, callback);
      }
    }
  }

  lemma {:induction false} InitialIsBalanced()
    ensures Balanced(INITIAL)
  {
  }

  lemma {:induction false} RunBalances(callback: Callback, states: seq<System>, steps: seq<Step>, n: nat)
    requires IsRun(callback, states, steps) && n < |states|
    ensures Balanced(states[n])
  {
    hide Next, Balanced;
    if n == 0 {
      InitialIsBalanced();
    } else {
      RunBalances(callback, states, steps, n - 1);
      NextBalances(states[n - 1], steps[n - 1], callback);
    }
  }

  /** The counter of gaps is exact: over every run it is the total of the sequence numbers left out
      inside the armed streams, cut off once at 32 bits. */
  lemma {:induction false} GapsAreExact(callback: Callback, states: seq<System>, steps: seq<Step>, n: nat)
    requires IsRun(callback, states, steps) && n < |states|
    ensures states[n].session.gaps == Min(U32_MAX, Total(AccountOf(states[n].log)))
  {
    hide IsRun, AccountOf, Total;
    RunBalances(callback, states, steps, n);
  }

  // -------------------------------------------------------------------------- with the interlock

  /** The authority that the interlock shows in a state. */
  function AuthorityOf(m: RI.Model): Authority {
    Authority(RI.LanAllowed(m), m.epoch)
  }

  /** No committed takeover of the radio lies between the ARM of a stream and a COMMAND on it that
      reaches the application, short of 2^32 takeovers: `seenAt` tells for every call in which state
      of the interlock its authority was read. */
  lemma {:induction false} CommandCrossesNoTakeover(
    callback: Callback, states: seq<System>, steps: seq<Step>, n: nat, p: nat,
    config: RI.Config, interlock: seq<RI.Model>, observations: seq<RI.Observation>, seenAt: seq<nat>)
    returns (a: nat)
    requires IsRun(callback, states, steps) && n < |states|
    requires RI.IsRun(config, interlock, observations)
    requires |seenAt| == |states[n].log| && p < |seenAt| && states[n].log[p].event.action == Command
    requires forall i | 0 <= i < |seenAt| ::
               seenAt[i] < |interlock| && states[n].log[i].authority == AuthorityOf(interlock[seenAt[i]])
    requires forall i, j | 0 <= i <= j < |seenAt| :: seenAt[i] <= seenAt[j]
    requires forall i: nat, k: nat | i <= k < |interlock| :: RI.Takeovers(interlock, i, k) < TWO_32
    ensures ArmFor(states[n].log, a, p) && seenAt[a] <= seenAt[p]
    ensures RI.Takeovers(interlock, seenAt[a], seenAt[p]) == 0
    ensures RI.LanAllowed(interlock[seenAt[p]])
  {
    a := CommandReachesArmedStream(callback, states, steps, n, p);
    assert seenAt[a] <= seenAt[p];
    assert interlock[seenAt[a]].epoch == interlock[seenAt[p]].epoch;
    RI.SameEpochMeansNoTakeover(config, interlock, observations, seenAt[a], seenAt[p]);
    hide *;
  }
}
