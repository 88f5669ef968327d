/** Which packets reach the application, and with what answer, in every state of the session and whatever
    the application accepts. */
module ControlLanAnswers {
  import opened MachineIntegers
  import opened ControlLan
  import opened ControlLanRuns

  /** The stream is active under the authority that it was armed in. */
  predicate Live(s: Session, authority: Authority) {
    s.active && authority.lanAllowed && s.epoch == authority.epoch
  }

  /** The application heard the event of the packet, as the last call of the step. */
  predicate Reached(before: System, after: System, event: Event, authority: Authority, callback: Callback) {
    && |before.log| < |after.log|
    && var last := |after.log| - 1;
       after.log[last] == Call(event, callback(after.log[..last], event), authority, false)
  }

  /** The answer of the application to the last call. */
  predicate LastAccepted(s: System) {
    s.log != [] && s.log[|s.log| - 1].accepted
  }

  /** Before the event of the packet come only the STOPs of the session's own: for the stream that has lost
      its authority, or for the one that a new stream takes the place of. */
  predicate OwnStop(call: Call, s: Session, authority: Authority, timestamp: U64) {
    call.own && call.authority == authority && call.event == Event(Stop, s.stream, s.lastSequence, timestamp)
  }

  lemma {:induction false} LastOf(log: seq<Call>, call: Call)
    ensures (log + [call])[..|log|] == log && (log + [call])[|log|] == call
  {
  }

  /** A poll, like the beginning of every packet, stops exactly a stream that is active without its
      authority, and forgets it whatever the application answers. */
  lemma {:induction false} PollStopsIff(s: System, authority: Authority, timestamp: U64, callback: Callback)
    ensures var after := Next(s, Poll(authority, timestamp), callback);
            if s.session.active && !Live(s.session, authority) then
              && |after.log| == |s.log| + 1 && s.log <= after.log && !after.session.active
              && OwnStop(after.log[|s.log|], s.session, authority, timestamp)
              && after.session.gaps == s.session.gaps
            else after == s
  {
  }

  /** A STOP or DISARM packet reaches the application in every session and under every authority, and
      leaves no stream active. */
  lemma {:induction false} StopIsDelivered(s: System, event: Event, authority: Authority, callback: Callback)
    requires event.action == Stop || event.action == Disarm
    ensures var after := Next(s, Packet(event, authority), callback);
            && Reached(s, after, event, authority, callback)
            && !after.session.active && after.session.gaps == s.session.gaps
            && |after.log| == |s.log| + (if s.session.active && !Live(s.session, authority) then 2 else 1)
            && (s.session.active && !Live(s.session, authority) ==>
                  OwnStop(after.log[|s.log|], s.session, authority, event.timestamp))
    ensures Handled(s, event, authority, callback).1 ==
              if LastAccepted(Next(s, Packet(event, authority), callback)) then Accepted else Rejected
  {
    hide OrderCheck;
    var checked := Enforced(s, authority, event.timestamp, callback);
    LastOf(checked.log, Call(event, callback(checked.log, event), authority, false));
    StopsPass(checked.session, event);
  }

  lemma {:induction false} StopsPass(s: Session, event: Event)
    requires event.action == Stop || event.action == Disarm
    ensures OrderCheck(s, event) == Accepted
  {
  }

  /** May the COMMAND be handed on? */
  predicate Timely(s: Session, event: Event, authority: Authority) {
    Live(s, authority) && event.stream == s.stream && event.sequence > s.lastSequence
  }

  /** A COMMAND packet reaches the application exactly when its stream is the live one and its sequence is
      above the last accepted one; every other COMMAND changes nothing but what a poll would. */
  lemma {:induction false} CommandIsDeliveredIff(s: System, event: Event, authority: Authority, callback: Callback)
    requires event.action == Command
    ensures var after := Next(s, Packet(event, authority), callback);
            && (Reached(s, after, event, authority, callback) <==> Timely(s.session, event, authority))
            && (Timely(s.session, event, authority) ==>
                  && |after.log| == |s.log| + 1
                  && after.session == if LastAccepted(after)
                                      then s.session.(lastSequence := event.sequence, gaps := after.session.gaps)
                                      else s.session)
            && (!Timely(s.session, event, authority) ==>
                  after == Next(s, Poll(authority, event.timestamp), callback))
  {
    LastOf(s.log, Call(event, callback(s.log, event), authority, false));
    hide GapCount, SaturatingAdd;
  }

  /** And the answer tells which condition failed. */
  lemma {:induction false} CommandAnswer(s: System, event: Event, authority: Authority, callback: Callback)
    requires event.action == Command
    ensures var answer := Handled(s, event, authority, callback).1;
            && (answer == LanBlocked <==> !authority.lanAllowed)
            && (answer == StreamNotArmed <==> authority.lanAllowed && !Live(s.session, authority))
            && (answer == StreamMismatch <==> Live(s.session, authority) && event.stream != s.session.stream)
            && (answer == SequenceNotIncreasing <==>
                  Live(s.session, authority) && event.stream == s.session.stream
                  && event.sequence <= s.session.lastSequence)
            && (answer == Accepted || answer == Rejected <==> Timely(s.session, event, authority))
            && (answer == Accepted <==>
                  Timely(s.session, event, authority)
                  && LastAccepted(Next(s, Packet(event, authority), callback)))
  {
    hide GapCount, SaturatingAdd;
  }

  /** Does the ARM repeat a number of the live stream? */
  predicate Repeats(s: Session, event: Event, authority: Authority) {
    Live(s, authority) && event.stream == s.stream && event.sequence <= s.lastSequence
  }

  /** Does the ARM need a STOP of the live stream that the application does not accept? */
  predicate Blocked(s: System, event: Event, authority: Authority, callback: Callback) {
    && Live(s.session, authority) && event.stream != s.session.stream
    && !callback(s.log, Event(Stop, s.session.stream, s.session.lastSequence, event.timestamp))
  }

  /** An ARM packet reaches the application exactly when the LAN is allowed, its sequence is above the last
      accepted one if its stream is live, and the STOP of another live stream is accepted. */
  lemma {:induction false} ArmIsDeliveredIff(s: System, event: Event, authority: Authority, callback: Callback)
    requires event.action == Arm
    ensures var after := Next(s, Packet(event, authority), callback);
            Reached(s, after, event, authority, callback) <==>
              && authority.lanAllowed && !Repeats(s.session, event, authority)
              && !Blocked(s, event, authority, callback)
    ensures var answer := Handled(s, event, authority, callback).1;
            && (answer == LanBlocked <==> !authority.lanAllowed)
            && (answer == SequenceNotIncreasing <==> Repeats(s.session, event, authority))
            && (answer == SwitchStopRejected <==> Blocked(s, event, authority, callback))
            && (answer == Accepted <==>
                  && Reached(s, Next(s, Packet(event, authority), callback), event, authority, callback)
                  && LastAccepted(Next(s, Packet(event, authority), callback)))
            && answer != StreamNotArmed && answer != StreamMismatch
  {
    hide GapCount, SaturatingAdd, Committed;
    var checked := Enforced(s, authority, event.timestamp, callback);
    var ready := Switched(checked, event, authority, callback);
    LastOf(ready.log, Call(event, callback(ready.log, event), authority, false));
  }

  /** An accepted ARM makes its stream the live one under this authority; a refused or rejected one leaves
      the live stream alone if it is the same, and otherwise no stream at all. */
  lemma {:induction false} ArmStartsStream(s: System, event: Event, authority: Authority, callback: Callback)
    requires event.action == Arm
    ensures var after := Next(s, Packet(event, authority), callback); var same := event.stream == s.session.stream;
            && (Handled(s, event, authority, callback).1 == Accepted ==>
                  && Live(after.session, authority) && after.session.stream == event.stream
                  && after.session.lastSequence == event.sequence)
            && (Handled(s, event, authority, callback).1 != Accepted ==>
                  if Live(s.session, authority) && same then after.session == s.session
                  else !after.session.active)
  {
    hide GapCount, SaturatingAdd;
  }

  /** A session without a stream remembers nothing of one. */
  lemma {:induction false} NothingIsKept(callback: Callback, states: seq<System>, steps: seq<Step>, n: nat)
    requires IsRun(callback, states, steps) && n < |states| && !states[n].session.active
    ensures var session := states[n].session;
            session.stream == 0 && session.lastSequence == 0 && session.epoch == 0
  {
    hide GapCount, SaturatingAdd;
    if n > 0 && !states[n - 1].session.active {
      NothingIsKept(callback, states, steps, n - 1);
    }
  }
}
