/** The session behind the network port: which events reach the motion application, in which order.
    Parsing, authentication and the answer text are left out: a packet here is one that has passed
    them.  The log keeps every call of the event callback with the authority that was read for it, and
    whether it is a STOP of the session's own; whether the application accepts a call is an arbitrary
    function of the log. */
module ControlLan {
  import opened MachineIntegers

  datatype Action = Arm | Command | Disarm | Stop

  datatype Event = Event(action: Action, stream: U64, sequence: U64, timestamp: U64)

  datatype Authority = Authority(lanAllowed: bool, epoch: U32)

  datatype Call = Call(event: Event, accepted: bool, authority: Authority, own: bool)

  datatype Session = Session(active: bool, stream: U64, lastSequence: U64, epoch: U32, gaps: U32)

  datatype System = System(session: Session, log: seq<Call>)

  datatype Rejection = Accepted | Rejected | LanBlocked | StreamNotArmed | StreamMismatch
                     | SequenceNotIncreasing | SwitchStopRejected

  type Callback = (seq<Call>, Event) -> bool

  const INITIAL: System := System(Session(false, 0, 0, 0, 0), [])

  predicate Increasing(previous: U64, incoming: U64) {
    incoming > previous
  }

  /** The numbers left out between two sequence numbers, in 32 bits. */
  function GapCount(previous: U64, incoming: U64): U32 {
    if !Increasing(previous, incoming) || incoming - previous <= 1 then 0
    else
      var gap := incoming - previous - 1;
      if gap > U32_MAX then U32_MAX else gap
  }

  function SaturatingAdd(a: U32, b: U32): U32 {
    if U32_MAX - a < b then U32_MAX else a + b
  }

  function Retired(s: Session): Session {
    s.(active := false, stream := 0, lastSequence := 0, epoch := 0)
  }

  function Called(s: System, event: Event, authority: Authority, own: bool, callback: Callback): System {
    s.(log := s.log + [Call(event, callback(s.log, event), authority, own)])
  }

  function StopFor(s: Session, timestamp: U64): Event {
    Event(Stop, s.stream, s.lastSequence, timestamp)
  }

  predicate Revokes(s: Session, authority: Authority) {
    s.active && !(authority.lanAllowed && s.epoch == authority.epoch)
  }

  /** A stream whose authority is gone is stopped and forgotten, whatever the application answers. */
  function Enforced(s: System, authority: Authority, timestamp: U64, callback: Callback): System {
    if Revokes(s.session, authority) then
      Called(s, StopFor(s.session, timestamp), authority, true, callback).(session := Retired(s.session))
    else s
  }

  function OrderCheck(s: Session, event: Event): Rejection {
    if event.action == Stop || event.action == Disarm then Accepted
    else if event.action == Command then
      if !s.active then StreamNotArmed
      else if event.stream != s.stream then StreamMismatch
      else if Increasing(s.lastSequence, event.sequence) then Accepted
      else SequenceNotIncreasing
    else if s.active && event.stream == s.stream && !Increasing(s.lastSequence, event.sequence) then
      SequenceNotIncreasing
    else Accepted
  }

  function Committed(s: Session, event: Event, accepted: bool, epoch: U32): Session {
    if event.action == Stop || event.action == Disarm then Retired(s)
    else if !accepted then s
    else
      var gap := if s.active && event.stream == s.stream then GapCount(s.lastSequence, event.sequence) else 0;
      var counted := s.(gaps := SaturatingAdd(s.gaps, gap));
      var armed :=
        if event.action == Arm && (!s.active || event.stream != s.stream)
        then counted.(active := true, stream := event.stream, epoch := epoch)
        else counted;
      armed.(lastSequence := event.sequence)
  }

  /** A different stream is stopped before a new one is armed. */
  predicate Switches(s: Session, event: Event) {
    event.action == Arm && s.active && event.stream != s.stream
  }

  function Switched(s: System, event: Event, authority: Authority, callback: Callback): System {
    if Switches(s.session, event) then
      Called(s, StopFor(s.session, event.timestamp), authority, true, callback).(session := Retired(s.session))
    else s
  }

  function Delivered(s: System, event: Event, authority: Authority, callback: Callback): System {
    Called(s, event, authority, false, callback).(
      session := Committed(s.session, event, callback(s.log, event), authority.epoch))
  }

  /** The session part of one packet. */
  function Handled(s: System, event: Event, authority: Authority, callback: Callback): (System, Rejection) {
    var checked := Enforced(s, authority, event.timestamp, callback);
    if (event.action == Arm || event.action == Command) && !authority.lanAllowed then (checked, LanBlocked)
    else if OrderCheck(checked.session, event) != Accepted then (checked, OrderCheck(checked.session, event))
    else
      var ready := Switched(checked, event, authority, callback);
      if Switches(checked.session, event) && !callback(checked.log, StopFor(checked.session, event.timestamp))
      then (ready, SwitchStopRejected)
      else (Delivered(ready, event, authority, callback), if callback(ready.log, event) then Accepted else Rejected)
  }

  // -------------------------------------------------------------------------- the in-place form

  class Handle {
    const callback: Callback
    var log: seq<Call>
    var streamActive: bool
    var activeStream: U64
    var lastSequence: U64
    var activeEpoch: U32
    var gaps: U32

    ghost function Contents(): System
      reads this
    {
      System(Session(streamActive, activeStream, lastSequence, activeEpoch, gaps), log)
    }

    constructor (callback: Callback)
      ensures Contents() == INITIAL && this.callback == callback
    {
      this.callback, log := callback, [];
      streamActive, activeStream, lastSequence, activeEpoch, gaps := false, 0, 0, 0, 0;
    }

    method CallBack(event: Event, authority: Authority, own: bool) returns (accepted: bool)
      modifies `log
      ensures accepted == callback(old(log), event)
      ensures Contents() == Called(old(Contents()), event, authority, own, callback)
    {
      accepted := callback(log, event);
      log := log + [Call(event, accepted, authority, own)];
    }

    method Retire()
      modifies `streamActive, `activeStream, `lastSequence, `activeEpoch
      ensures Contents() == old(Contents()).(session := Retired(old(Contents()).session))
    {
      streamActive := false;
      activeStream := 0;
      lastSequence := 0;
      activeEpoch := 0;
    }

    method EnforceAuthority(authority: Authority, timestamp: U64)
      modifies this
      ensures Contents() == Enforced(old(Contents()), authority, timestamp, callback)
    {
      if !streamActive || (authority.lanAllowed && activeEpoch == authority.epoch) {
        return;
      }
      var _ := CallBack(Event(Stop, activeStream, lastSequence, timestamp), authority, true);
      Retire();
    }

    method ValidateEventOrder(event: Event) returns (rejection: Rejection)
      ensures rejection == OrderCheck(Contents().session, event)
    {
      if event.action == Stop || event.action == Disarm {
        return Accepted;
      }
      if event.action == Command {
        if !streamActive {
          return StreamNotArmed;
        }
        if event.stream != activeStream {
          return StreamMismatch;
        }
        return if Increasing(lastSequence, event.sequence) then Accepted else SequenceNotIncreasing;
      }
      if streamActive && event.stream == activeStream {
        return if Increasing(lastSequence, event.sequence) then Accepted else SequenceNotIncreasing;
      }
      return Accepted;
    }

    method CommitEventOrder(event: Event, accepted: bool, epoch: U32)
      modifies `streamActive, `activeStream, `lastSequence, `activeEpoch, `gaps
      ensures Contents() ==
                old(Contents()).(session := Committed(old(Contents()).session, event, accepted, epoch))
    {
      if event.action == Stop || event.action == Disarm {
        Retire();
        return;
      }
      if !accepted {
        return;
      }
      var gap := 0;
      if streamActive && event.stream == activeStream {
        gap := GapCount(lastSequence, event.sequence);
      }
      if gap > 0 {
        gaps := if U32_MAX - gaps < gap then U32_MAX else gaps + gap;
      }
      if event.action == Arm && (!streamActive || event.stream != activeStream) {
        Retire();
        streamActive := true;
        activeStream := event.stream;
        activeEpoch := epoch;
      }
      lastSequence := event.sequence;
    }

    method HandlePacket(event: Event, authority: Authority) returns (rejection: Rejection)
      modifies this
      ensures (Contents(), rejection) == Handled(old(Contents()), event, authority, callback)
    {
      hide Committed, OrderCheck;
      EnforceAuthority(authority, event.timestamp);
      if (event.action == Arm || event.action == Command) && !authority.lanAllowed {
        return LanBlocked;
      }
      rejection := ValidateEventOrder(event);
      if rejection != Accepted {
        return;
      }
      if event.action == Arm && streamActive && event.stream != activeStream {
        var stopped := CallBack(Event(Stop, activeStream, lastSequence, event.timestamp), authority, true);
        Retire();
        if !stopped {
          return SwitchStopRejected;
        }
      }
      var accepted := CallBack(event, authority, false);
      CommitEventOrder(event, accepted, authority.epoch);
      rejection := if accepted then Accepted else Rejected;
    }
  }
}
