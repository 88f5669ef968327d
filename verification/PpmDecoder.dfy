/** Decoding of a pulse-position signal from the times of its rising edges, one edge at a time. */
module PpmDecoder {
  import opened MachineIntegers
  import opened Prelude

  const MAX_CHANNELS: nat := 14

  datatype Config = Config(channels: U8, minFrameChannels: U8, syncThreshold: U32, minPulse: U16, maxPulse: U16)

  predicate ConfigValid(c: Config) {
    && 0 < c.channels <= MAX_CHANNELS && c.minFrameChannels == c.channels
    && c.syncThreshold > c.maxPulse >= c.minPulse > 0
  }

  datatype Counters = Counters(
    edges: U32, gaps: U32, valid: U32, incomplete: U32, invalid: U32, overflow: U32, rejected: U32)

  /** `working` holds the widths of the frame in progress that still fit; `count` goes on up to 255. */
  datatype Model = Model(
    config: Config, hasLast: bool, last: U32, lastValid: U32,
    working: seq<U16>, count: U8, published: seq<U16>, counters: Counters)

  const NO_COUNTERS: Counters := Counters(0, 0, 0, 0, 0, 0, 0)

  function Initial(config: Config): Model {
    Model(config, false, 0, 0, [], 0, [], NO_COUNTERS)
  }

  function Plus(a: U32): U32 {
    (a + 1) % TWO_32
  }

  function Width(now: U32, last: U32): U32 {
    (now - last) % TWO_32
  }

  /** What a pulse of this width does. */
  function Pulse(m: Model, width: U32, now: U32): (Model, bool)
    requires ConfigValid(m.config)
  {
    var n := m.counters;
    if width >= m.config.syncThreshold then
      var counted := n.(gaps := Plus(n.gaps));
      if m.count == m.config.channels then
        (m.(published := m.working, lastValid := now, working := [], count := 0,
            counters := counted.(valid := Plus(n.valid))), true)
      else if m.count > 0 then
        (m.(working := [], count := 0,
            counters := counted.(rejected := Plus(n.rejected), incomplete := Plus(n.incomplete))), false)
      else (m.(working := [], counters := counted), false)
    else if width < m.config.minPulse || width > m.config.maxPulse then
      (m.(counters := n.(invalid := Plus(n.invalid))), false)
    else if m.count < m.config.channels then (m.(working := m.working + [width], count := m.count + 1), false)
    else
      (m.(count := if m.count < U8_MAX then m.count + 1 else m.count,
          counters := n.(overflow := Plus(n.overflow))), false)
  }

  function RisingEdge(m: Model, now: U32): (Model, bool)
    requires ConfigValid(m.config)
  {
    var seen := m.(counters := m.counters.(edges := Plus(m.counters.edges)), hasLast := true, last := now);
    if !m.hasLast then (seen, false) else Pulse(seen, Width(now, m.last), now)
  }

  /** How long ago the last frame was published; zero stands for never. */
  function FrameAge(m: Model, now: U32): U32 {
    if m.lastValid == 0 then U32_MAX else Width(now, m.lastValid)
  }

  // -------------------------------------------------------------------------- the in-place form

  class Decoder {
    var config: Config
    var initialized: bool
    var hasLast: bool
    var last: U32
    var lastValid: U32
    const working: array<U16>
    const channels: array<U16>
    var workingCount: U8
    var publishedCount: U8
    var counters: Counters

    ghost predicate Valid()
      reads this
    {
      && working.Length == channels.Length == MAX_CHANNELS && working != channels
      && publishedCount <= MAX_CHANNELS
      && (initialized ==> ConfigValid(config))
    }

    ghost function Contents(): Model
      reads this, working, channels
      requires Valid()
    {
      Model(config, hasLast, last, lastValid, working[..Kept()], workingCount, channels[..publishedCount], counters)
    }

    /** How many widths of the frame in progress are stored. */
    ghost function Kept(): (n: nat)
      reads this
      ensures n <= MAX_CHANNELS
    {
      var stored := if workingCount < config.channels then workingCount else config.channels;
      if stored < MAX_CHANNELS then stored else MAX_CHANNELS
    }

    constructor ()
      ensures Valid() && !initialized && fresh(working) && fresh(channels)
    {
      config := Config(0, 0, 0, 0, 0);
      initialized, hasLast, last, lastValid := false, false, 0, 0;
      working := new U16[MAX_CHANNELS](_ => 0);
      channels := new U16[MAX_CHANNELS](_ => 0);
      workingCount, publishedCount, counters := 0, 0, NO_COUNTERS;
    }

    method Init(config: Config) returns (ok: bool)
      requires Valid()
      modifies this
      ensures Valid() && ok == ConfigValid(config)
      ensures ok ==> initialized && Contents() == Initial(config)
      ensures !ok ==> initialized == old(initialized)
    {
      if config.channels == 0 || config.channels > MAX_CHANNELS || config.minFrameChannels != config.channels
         || config.syncThreshold == 0 || config.minPulse == 0 || config.maxPulse < config.minPulse
         || config.syncThreshold <= config.maxPulse {
        return false;
      }
      this.config := config;
      initialized, hasLast, last, lastValid := true, false, 0, 0;
      workingCount, publishedCount, counters := 0, 0, NO_COUNTERS;
      return true;
    }

    /** Copies the frame in progress to the published channels. */
    method Publish()
      requires Valid() && initialized && workingCount == config.channels
      modifies `publishedCount, channels
      ensures Valid() && channels[..publishedCount] == working[..config.channels]
    {
      for index := 0 to config.channels
        invariant forall k | 0 <= k < index :: channels[k] == working[k]
        modifies channels
      {
        channels[index] := working[index];
      }
      publishedCount := config.channels;
    }

    method FeedRisingEdge(now: U32) returns (published: bool)
      requires Valid()
      modifies this, working, channels
      ensures Valid() && initialized == old(initialized)
      ensures if initialized then (Contents(), published) == RisingEdge(old(Contents()), now)
              else !published && Contents() == old(Contents())
    {
      if !initialized {
        return false;
      }
      counters := counters.(edges := Plus(counters.edges));
      if !hasLast {
        hasLast := true;
        last := now;
        return false;
      }
      var width := Width(now, last);
      last := now;
      published := FeedPulse(width, now);
    }

    method FeedPulse(width: U32, now: U32) returns (published: bool)
      requires Valid() && initialized
      modifies this, working, channels
      ensures Valid() && initialized
      ensures (Contents(), published) == Pulse(old(Contents()), width, now)
    {
      published := false;
      if width >= config.syncThreshold {
        counters := counters.(gaps := Plus(counters.gaps));
        if workingCount == config.channels {
          Publish();
          lastValid := now;
          counters := counters.(valid := Plus(counters.valid));
          published := true;
        } else if workingCount > 0 {
          counters := counters.(rejected := Plus(counters.rejected), incomplete := Plus(counters.incomplete));
        }
        workingCount := 0;
      } else if width < config.minPulse || width > config.maxPulse {
        counters := counters.(invalid := Plus(counters.invalid));
      } else if workingCount < config.channels {
        working[workingCount] := width;
        workingCount := workingCount + 1;
        assert working[..Kept()] == old(working[..Kept()]) + [width];
      } else {
        counters := counters.(overflow := Plus(counters.overflow));
        if workingCount < U8_MAX {
          workingCount := workingCount + 1;
        }
      }
    }
  }

  // ------------------------------------------------------------------------------- the batch view

  /** The model after these edges. */
  function After(config: Config, edges: seq<U32>): (m: Model)
    requires ConfigValid(config)
    ensures m.config == config
  {
    if edges == [] then Initial(config)
    else RisingEdge(After(config, edges[..|edges| - 1]), edges[|edges| - 1]).0
  }

  /** The widths between neighbouring edges. */
  function Widths(edges: seq<U32>): (widths: seq<U32>)
    ensures |widths| == if |edges| == 0 then 0 else |edges| - 1
  {
    if |edges| <= 1 then []
    else Widths(edges[..|edges| - 1]) + [Width(edges[|edges| - 1], edges[|edges| - 2])]
  }

  predicate IsGap(c: Config, width: U32) {
    width >= c.syncThreshold
  }

  predicate InRange(c: Config, width: U32) {
    c.minPulse <= width <= c.maxPulse
  }

  /** The widths that can be channels, in order. */
  function Channels(c: Config, widths: seq<U32>): (channels: seq<U16>) {
    if widths == [] then []
    else
      var last := widths[|widths| - 1];
      Channels(c, widths[..|widths| - 1]) + if InRange(c, last) then [last] else []
  }

  /** Where the frame in progress starts: behind the last gap. */
  function Start(c: Config, widths: seq<U32>): (start: nat)
    ensures start <= |widths|
    ensures start > 0 ==> IsGap(c, widths[start - 1])
    ensures forall k | start <= k < |widths| :: !IsGap(c, widths[k])
  {
    if widths == [] then 0
    else if IsGap(c, widths[|widths| - 1]) then |widths|
    else Start(c, widths[..|widths| - 1])
  }

  /** Widths i to j - 1 lie between two gaps, or between the first edge and the first gap. */
  predicate Segment(c: Config, widths: seq<U32>, i: nat, j: nat) {
    && i <= j < |widths| && IsGap(c, widths[j]) && (i > 0 ==> IsGap(c, widths[i - 1]))
    && forall k | i <= k < j :: !IsGap(c, widths[k])
  }

  predicate CompleteSegment(c: Config, widths: seq<U32>, i: nat, j: nat) {
    Segment(c, widths, i, j) && |Channels(c, widths[i..j])| == c.channels
  }

  /** The batch specification: the channels of the latest complete segment, if there is one. */
  ghost predicate LatestFrame(c: Config, widths: seq<U32>, published: seq<U16>) {
    || (published == [] && forall i: nat, j: nat :: !CompleteSegment(c, widths, i, j))
    || exists i: nat, j: nat ::
         && CompleteSegment(c, widths, i, j) && published == Channels(c, widths[i..j])
         && forall x: nat, y: nat | y > j :: !CompleteSegment(c, widths, x, y)
  }

  /** The frame in progress, given its channels. */
  predicate Holds(m: Model, channels: seq<U16>) {
    && m.count == (if |channels| <= U8_MAX then |channels| else U8_MAX)
    && m.working == if |channels| <= m.config.channels then channels else channels[..m.config.channels]
  }

  /** The decoder's frame in progress is the channels behind the last gap, cut off where they no longer
      fit, and its count is exact up to 255. */
  predicate InProgress(m: Model, widths: seq<U32>) {
    Holds(m, Channels(m.config, widths[Start(m.config, widths)..]))
  }

  ghost predicate Refines(m: Model, edges: seq<U32>) {
    && m.hasLast == (edges != [])
    && (edges != [] ==> m.last == edges[|edges| - 1])
    && InProgress(m, Widths(edges))
    && LatestFrame(m.config, Widths(edges), m.published)
  }

  lemma {:induction false} ChannelsOfMore(c: Config, widths: seq<U32>, width: U32)
    ensures Channels(c, widths + [width]) == Channels(c, widths) + if InRange(c, width) then [width] else []
  {
    assert (widths + [width])[..|widths|] == widths;
  }

  lemma {:induction false} StartOfMore(c: Config, widths: seq<U32>, width: U32)
    ensures Start(c, widths + [width]) == if IsGap(c, width) then |widths| + 1 else Start(c, widths)
  {
    assert (widths + [width])[..|widths|] == widths;
  }

  /** A segment that ends before the last width is a segment without it. */
  lemma {:induction false} OldSegment(c: Config, widths: seq<U32>, width: U32, i: nat, j: nat)
    requires i <= j < |widths|
    ensures CompleteSegment(c, widths + [width], i, j) <==> CompleteSegment(c, widths, i, j)
  {
    var longer := widths + [width];
    assert longer[i..j] == widths[i..j];
    assert forall k | 0 <= k < |widths| :: longer[k] == widths[k];
    assert forall k | i <= k < j :: IsGap(c, longer[k]) == IsGap(c, widths[k]);
  }

  lemma {:induction false} StartIsUnique(c: Config, widths: seq<U32>, i: nat)
    requires i <= |widths| && (i > 0 ==> IsGap(c, widths[i - 1]))
    requires forall k | i <= k < |widths| :: !IsGap(c, widths[k])
    ensures i == Start(c, widths)
  {
    if i < |widths| {
      StartIsUnique(c, widths[..|widths| - 1], i);
    }
  }

  /** The segment that a gap closes. */
  lemma {:induction false} ClosedSegment(c: Config, widths: seq<U32>, width: U32, i: nat)
    requires ConfigValid(c)
    ensures CompleteSegment(c, widths + [width], i, |widths|) <==>
              && IsGap(c, width) && i == Start(c, widths)
              && |Channels(c, widths[Start(c, widths)..])| == c.channels
  {
    var longer, start := widths + [width], Start(c, widths);
    assert forall k | 0 <= k < |widths| :: longer[k] == widths[k];
    if Segment(c, longer, i, |widths|) {
      forall k | i <= k < |widths| ensures !IsGap(c, widths[k]) {
        assert !IsGap(c, longer[k]);
      }
      StartIsUnique(c, widths, i);
      assert longer[i..|widths|] == widths[start..];
    }
    assert longer[start..|widths|] == widths[start..];
    hide Start, Channels;
  }

  lemma {:induction false} SameSegments(c: Config, widths: seq<U32>, width: U32)
    requires ConfigValid(c)
    requires !IsGap(c, width) || |Channels(c, widths[Start(c, widths)..])| != c.channels
    ensures forall i: nat, j: nat ::
              CompleteSegment(c, widths + [width], i, j) <==> CompleteSegment(c, widths, i, j)
  {
    var longer := widths + [width];
    forall i: nat, j: nat ensures CompleteSegment(c, longer, i, j) <==> CompleteSegment(c, widths, i, j) {
      if i <= j < |widths| {
        OldSegment(c, widths, width, i, j);
      } else if j == |widths| {
        ClosedSegment(c, widths, width, i);
      }
    }
  }

  lemma {:induction false} NoNewSegment(c: Config, widths: seq<U32>, width: U32, published: seq<U16>)
    requires ConfigValid(c) && LatestFrame(c, widths, published)
    requires !IsGap(c, width) || |Channels(c, widths[Start(c, widths)..])| != c.channels
    ensures LatestFrame(c, widths + [width], published)
  {
    var longer := widths + [width];
    SameSegments(c, widths, width);
    if i: nat, j: nat :| CompleteSegment(c, widths, i, j) && published == Channels(c, widths[i..j])
                         && forall x: nat, y: nat | y > j :: !CompleteSegment(c, widths, x, y) {
      assert j < |widths| && i <= j by { SegmentBounds(c, widths, i, j); }
      assert longer[i..j] == widths[i..j];
      assert CompleteSegment(c, longer, i, j);
    }
  }

  lemma {:induction false} SegmentBounds(c: Config, widths: seq<U32>, i: nat, j: nat)
    requires CompleteSegment(c, widths, i, j)
    ensures i <= j < |widths|
  {
  }

  lemma {:induction false} NewSegment(c: Config, widths: seq<U32>, width: U32)
    requires ConfigValid(c) && IsGap(c, width) && |Channels(c, widths[Start(c, widths)..])| == c.channels
    ensures LatestFrame(c, widths + [width], Channels(c, widths[Start(c, widths)..]))
  {
    var longer, start := widths + [width], Start(c, widths);
    ClosedSegment(c, widths, width, start);
    assert longer[start..|widths|] == widths[start..];
    assert CompleteSegment(c, longer, start, |widths|);
  }

  lemma {:induction false} PulseKeepsChannels(m: Model, channels: seq<U16>, width: U32, now: U32)
    requires ConfigValid(m.config) && Holds(m, channels)
    ensures IsGap(m.config, width) ==> Holds(Pulse(m, width, now).0, [])
    ensures !IsGap(m.config, width) ==>
              Holds(Pulse(m, width, now).0, channels + if InRange(m.config, width) then [width] else [])
  {
  }

  /** The channels of the frame in progress, from one width to the next. */
  lemma {:induction false} NextChannels(c: Config, widths: seq<U32>, width: U32)
    ensures var longer := widths + [width];
            Channels(c, longer[Start(c, longer)..]) ==
              if IsGap(c, width) then []
              else Channels(c, widths[Start(c, widths)..]) + if InRange(c, width) then [width] else []
  {
    var longer, start := widths + [width], Start(c, widths);
    StartOfMore(c, widths, width);
    ChannelsOfMore(c, widths[start..], width);
    if IsGap(c, width) {
      assert longer[|widths| + 1..] == [];
    } else {
      assert longer[start..] == widths[start..] + [width];
    }
  }

  lemma {:induction false} PulseKeepsInProgress(m: Model, widths: seq<U32>, width: U32, now: U32)
    requires ConfigValid(m.config) && InProgress(m, widths)
    ensures InProgress(Pulse(m, width, now).0, widths + [width])
  {
    hide Start, Channels, Pulse, IsGap, InRange;
    PulseKeepsTime(m, width, now);
    PulseKeepsChannels(m, Channels(m.config, widths[Start(m.config, widths)..]), width, now);
    NextChannels(m.config, widths, width);
  }

  lemma {:induction false} PulseKeepsLatest(m: Model, widths: seq<U32>, width: U32, now: U32)
    requires ConfigValid(m.config) && InProgress(m, widths) && LatestFrame(m.config, widths, m.published)
    ensures LatestFrame(m.config, widths + [width], Pulse(m, width, now).0.published)
  {
    hide LatestFrame, Start, Channels;
    if IsGap(m.config, width) && m.count == m.config.channels {
      NewSegment(m.config, widths, width);
    } else {
      NoNewSegment(m.config, widths, width, m.published);
    }
  }

  /** One edge at a time computes the batch specification, across the wrap-around of the clock and
      past the saturation of the channel count. */
  lemma {:induction false} DecoderRefinesBatch(config: Config, edges: seq<U32>)
    requires ConfigValid(config)
    ensures Refines(After(config, edges), edges)
  {
    hide Refines, RisingEdge, Initial;
    if edges == [] {
      NothingYet(config);
    } else {
      var before, now := edges[..|edges| - 1], edges[|edges| - 1];
      DecoderRefinesBatch(config, before);
      EdgeRefines(config, before, now);
      assert edges == before + [now];
    }
  }

  /** An edge reports a frame exactly when the width that it ends is a gap that closes a complete segment. */
  lemma {:induction false} PublishesIff(config: Config, before: seq<U32>, now: U32)
    requires ConfigValid(config)
    ensures RisingEdge(After(config, before), now).1 <==>
              before != [] && exists i: nat :: CompleteSegment(config, Widths(before + [now]), i, |Widths(before)|)
  {
    hide LatestFrame, InProgress, Widths, CompleteSegment, After, Pulse;
    DecoderRefinesBatch(config, before);
    if before != [] {
      WidthsOfMore(before, now);
      AfterKeepsConfig(config, before);
      EdgeCloses(After(config, before), Widths(before), now);
    }
  }

  lemma {:induction false} EdgeCloses(m: Model, widths: seq<U32>, now: U32)
    requires ConfigValid(m.config) && InProgress(m, widths) && m.hasLast
    ensures RisingEdge(m, now).1 <==>
              exists i: nat :: CompleteSegment(m.config, widths + [Width(now, m.last)], i, |widths|)
  {
    hide Start, Channels, IsGap, CompleteSegment, Pulse;
    var width, start := Width(now, m.last), Start(m.config, widths);
    FullIff(m.(counters := m.counters.(edges := Plus(m.counters.edges)), hasLast := true, last := now),
            widths, width, now);
    ClosedSegment(m.config, widths, width, start);
    forall i: nat | CompleteSegment(m.config, widths + [width], i, |widths|) ensures i == start {
      ClosedSegment(m.config, widths, width, i);
    }
  }

  lemma {:induction false} FullIff(m: Model, widths: seq<U32>, width: U32, now: U32)
    requires ConfigValid(m.config) && InProgress(m, widths)
    ensures Pulse(m, width, now).1 <==>
              IsGap(m.config, width) && |Channels(m.config, widths[Start(m.config, widths)..])| == m.config.channels
  {
    hide Start, Channels;
  }

  lemma {:induction false} WidthsOfMore(before: seq<U32>, now: U32)
    requires before != []
    ensures Widths(before + [now]) == Widths(before) + [Width(now, before[|before| - 1])]
  {
    assert (before + [now])[..|before|] == before;
  }

  lemma {:induction false} AfterKeepsConfig(config: Config, edges: seq<U32>)
    requires ConfigValid(config)
    ensures After(config, edges).config == config
  {
    hide Pulse;
    if edges != [] {
      AfterKeepsConfig(config, edges[..|edges| - 1]);
      EdgeKeepsConfig(After(config, edges[..|edges| - 1]), edges[|edges| - 1]);
    }
  }

  lemma {:induction false} EdgeKeepsConfig(m: Model, now: U32)
    requires ConfigValid(m.config)
    ensures RisingEdge(m, now).0.config == m.config
  {
  }

  lemma {:induction false} NothingYet(config: Config)
    ensures Refines(Initial(config), [])
  {
  }

  lemma {:induction false} EdgeRefines(config: Config, before: seq<U32>, now: U32)
    requires ConfigValid(config) && Refines(After(config, before), before)
    ensures Refines(RisingEdge(After(config, before), now).0, before + [now])
  {
    hide After, LatestFrame, Start, Channels, Pulse;
    var m, edges := After(config, before), before + [now];
    assert edges[..|edges| - 1] == before;
    if before == [] {
      assert Widths(edges) == Widths(before) == [];
    } else {
      var width := Width(now, m.last);
      assert Widths(edges) == Widths(before) + [width];
      var seen := m.(counters := m.counters.(edges := Plus(m.counters.edges)), hasLast := true, last := now);
      PulseKeepsInProgress(seen, Widths(before), width, now);
      PulseKeepsLatest(seen, Widths(before), width, now);
      PulseKeepsTime(seen, width, now);
    }
  }

  lemma {:induction false} PulseKeepsTime(m: Model, width: U32, now: U32)
    requires ConfigValid(m.config)
    ensures var after := Pulse(m, width, now).0;
            after.hasLast == m.hasLast && after.last == m.last && after.config == m.config
            && after.counters.edges == m.counters.edges
  {
  }

  // ---------------------------------------------------------------------------------- the counters

  /** Unbounded counts over all widths so far; `stored` and `overflow` are widths that could be
      channels, `complete`, `incomplete` and `empty` are gaps by what they closed. */
  datatype Tally = Tally(
    gaps: nat, complete: nat, incomplete: nat, empty: nat, invalid: nat, stored: nat, overflow: nat)

  function TallyOf(c: Config, widths: seq<U32>): Tally {
    if widths == [] then Tally(0, 0, 0, 0, 0, 0, 0)
    else
      var before, width := widths[..|widths| - 1], widths[|widths| - 1];
      var t, n := TallyOf(c, before), |Channels(c, before[Start(c, before)..])|;
      if IsGap(c, width) then
        var closed := t.(gaps := t.gaps + 1);
        if n == c.channels then closed.(complete := t.complete + 1)
        else if n > 0 then closed.(incomplete := t.incomplete + 1)
        else closed.(empty := t.empty + 1)
      else if !InRange(c, width) then t.(invalid := t.invalid + 1)
      else if n < c.channels then t.(stored := t.stored + 1)
      else t.(overflow := t.overflow + 1)
  }

  /** Every width is a gap, invalid, stored or an overflow; every gap closes a complete, an incomplete
      or an empty segment; and no more than the channel count is stored for each segment. */
  lemma {:induction false} WidthsAreConserved(c: Config, widths: seq<U32>)
    requires ConfigValid(c)
    ensures var t := TallyOf(c, widths);
            && |widths| == t.gaps + t.invalid + t.stored + t.overflow
            && t.gaps == t.complete + t.incomplete + t.empty
            && t.stored + t.overflow == |Channels(c, widths)|
            && t.stored >= c.channels * t.complete
  {
    hide TallyOf, Channels;
    EveryWidthIsTallied(c, widths);
    StoredIsEnough(c, widths);
  }

  lemma {:induction false} EveryWidthIsTallied(c: Config, widths: seq<U32>)
    requires ConfigValid(c)
    ensures var t := TallyOf(c, widths);
            && |widths| == t.gaps + t.invalid + t.stored + t.overflow
            && t.gaps == t.complete + t.incomplete + t.empty
            && t.stored + t.overflow == |Channels(c, widths)|
  {
    hide Start;
    if widths != [] {
      EveryWidthIsTallied(c, widths[..|widths| - 1]);
    }
  }

  /** What is stored covers the complete segments and the one in progress. */
  lemma {:induction false} StoredIsEnough(c: Config, widths: seq<U32>)
    requires ConfigValid(c)
    ensures var t := TallyOf(c, widths);
            t.stored >= c.channels * t.complete + Min(c.channels, |Channels(c, widths[Start(c, widths)..])|)
  {
    if widths == [] {
    } else {
      var before, width := widths[..|widths| - 1], widths[|widths| - 1];
      assert widths == before + [width];
      StoredIsEnough(c, before);
      NextChannels(c, before, width);
      OneMoreFrame(c.channels, TallyOf(c, before).complete);
      hide Start, Channels, IsGap, InRange;
    }
  }

  lemma {:induction false} OneMoreFrame(channels: nat, complete: nat)
    ensures channels * (complete + 1) == channels * complete + channels
  {
  }

  function Wrapped(t: Tally, edges: nat): Counters {
    Counters(edges % TWO_32, t.gaps % TWO_32, t.complete % TWO_32, t.incomplete % TWO_32,
             t.invalid % TWO_32, t.overflow % TWO_32, t.incomplete % TWO_32)
  }

  lemma {:induction false} PlusWraps(n: nat)
    ensures Plus(n % TWO_32) == (n + 1) % TWO_32
  {
  }

  lemma {:induction false} PulseTallies(m: Model, widths: seq<U32>, width: U32, now: U32, edges: nat)
    requires ConfigValid(m.config) && InProgress(m, widths)
    requires m.counters == Wrapped(TallyOf(m.config, widths), edges)
    ensures Pulse(m, width, now).0.counters == Wrapped(TallyOf(m.config, widths + [width]), edges)
  {
    hide Start, Channels, Plus;
    var t := TallyOf(m.config, widths);
    assert (widths + [width])[..|widths|] == widths;
    PlusWraps(t.gaps);
    PlusWraps(t.complete);
    PlusWraps(t.incomplete);
    PlusWraps(t.invalid);
    PlusWraps(t.overflow);
  }

  /** Every counter is its unbounded count modulo 2^32, and a rejected frame is an incomplete one. */
  lemma {:induction false} CountersAreTallies(config: Config, edges: seq<U32>)
    requires ConfigValid(config)
    ensures After(config, edges).counters == Wrapped(TallyOf(config, Widths(edges)), |edges|)
  {
    hide RisingEdge, TallyOf, Refines, Wrapped, Widths, Initial;
    if edges == [] {
      NoTally(config);
    } else {
      var before, now := edges[..|edges| - 1], edges[|edges| - 1];
      CountersAreTallies(config, before);
      DecoderRefinesBatch(config, before);
      EdgeTallies(config, before, now);
      assert edges == before + [now];
    }
  }

  lemma {:induction false} NoTally(config: Config)
    ensures Initial(config).counters == Wrapped(TallyOf(config, Widths([])), 0)
  {
  }

  lemma {:induction false} EdgeTallies(config: Config, before: seq<U32>, now: U32)
    requires ConfigValid(config) && Refines(After(config, before), before)
    requires After(config, before).counters == Wrapped(TallyOf(config, Widths(before)), |before|)
    ensures RisingEdge(After(config, before), now).0.counters ==
              Wrapped(TallyOf(config, Widths(before + [now])), |before| + 1)
  {
    hide After, LatestFrame, Start, Channels, Pulse, TallyOf, Plus;
    var m, edges := After(config, before), before + [now];
    assert edges[..|edges| - 1] == before;
    PlusWraps(|before|);
    if before == [] {
      assert Widths(edges) == Widths(before) == [];
    } else {
      var width := Width(now, m.last);
      assert Widths(edges) == Widths(before) + [width];
      var seen := m.(counters := m.counters.(edges := Plus(m.counters.edges)), hasLast := true, last := now);
      PulseTallies(seen, Widths(before), width, now, |before| + 1);
    }
  }

  // ------------------------------------------------------------------------- the age of a frame

  /** The latest complete segment. */
  ghost predicate LatestSegment(c: Config, widths: seq<U32>, i: nat, j: nat) {
    CompleteSegment(c, widths, i, j) && forall x: nat, y: nat | y > j :: !CompleteSegment(c, widths, x, y)
  }

  /** The last valid time is that of the edge that closed the latest complete segment, and zero if
      there is none. */
  ghost predicate Ended(c: Config, edges: seq<U32>, lastValid: U32) {
    var widths := Widths(edges);
    && ((forall i: nat, j: nat :: !CompleteSegment(c, widths, i, j)) ==> lastValid == 0)
    && forall i: nat, j: nat | LatestSegment(c, widths, i, j) :: j + 1 < |edges| && lastValid == edges[j + 1]
  }

  /** One width more: a gap that closes a complete segment, or nothing new. */
  lemma {:induction false} EndedStep(
    c: Config, before: seq<U32>, now: U32, width: U32, lastValid: U32, next: U32)
    requires ConfigValid(c) && Ended(c, before, lastValid)
    requires Widths(before + [now]) == Widths(before) + [width]
    requires var widths := Widths(before);
             next == if IsGap(c, width) && |Channels(c, widths[Start(c, widths)..])| == c.channels
                     then now else lastValid
    ensures Ended(c, before + [now], next)
  {
    hide Start, Channels, Widths, Segment, IsGap;
    var widths, edges := Widths(before), before + [now];
    var longer := Widths(edges);
    if IsGap(c, width) && |Channels(c, widths[Start(c, widths)..])| == c.channels {
      ClosedSegment(c, widths, width, Start(c, widths));
      forall i: nat, j: nat | LatestSegment(c, longer, i, j) ensures j + 1 < |edges| && next == edges[j + 1] {
        SegmentBounds(c, longer, i, j);
        assert CompleteSegment(c, longer, Start(c, widths), |widths|);
      }
    } else {
      SameSegments(c, widths, width);
      forall i: nat, j: nat | LatestSegment(c, longer, i, j) ensures j + 1 < |edges| && next == edges[j + 1] {
        assert LatestSegment(c, widths, i, j);
      }
    }
  }

  lemma {:induction false} NothingEnded(c: Config, edges: seq<U32>)
    requires |edges| <= 1
    ensures Ended(c, edges, 0)
  {
  }

  lemma {:induction false} LastValidIsItsEnd(config: Config, edges: seq<U32>)
    requires ConfigValid(config)
    ensures Ended(config, edges, After(config, edges).lastValid)
  {
    hide Ended, RisingEdge, Refines;
    if edges == [] {
      NothingEnded(config, edges);
    } else {
      var before, now := edges[..|edges| - 1], edges[|edges| - 1];
      LastValidIsItsEnd(config, before);
      DecoderRefinesBatch(config, before);
      EdgeEnds(config, before, now);
      assert edges == before + [now];
    }
  }

  lemma {:induction false} EdgeEnds(config: Config, before: seq<U32>, now: U32)
    requires ConfigValid(config) && Refines(After(config, before), before)
    requires Ended(config, before, After(config, before).lastValid)
    ensures Ended(config, before + [now], RisingEdge(After(config, before), now).0.lastValid)
  {
    hide After, Ended, LatestFrame, Start, Channels, Plus;
    var m, edges := After(config, before), before + [now];
    assert edges[..|edges| - 1] == before;
    if before == [] {
      NothingYetEnded(config, m.lastValid);
      NothingEnded(config, edges);
    } else {
      var width := Width(now, m.last);
      assert Widths(edges) == Widths(before) + [width];
      EndedStep(config, before, now, width, m.lastValid, RisingEdge(m, now).0.lastValid);
    }
  }

  lemma {:induction false} NothingYetEnded(c: Config, lastValid: U32)
    requires Ended(c, [], lastValid)
    ensures lastValid == 0
  {
    forall i: nat, j: nat ensures !CompleteSegment(c, Widths([]), i, j) {}
  }

  /** The edges that a 32-bit clock shows at these times. */
  function Shown(times: seq<nat>): (edges: seq<U32>)
    ensures |edges| == |times|
  {
    seq(|times|, i requires 0 <= i < |times| => times[i] % TWO_32)
  }

  /** Without any complete segment the age is that of a frame that never came. */
  lemma {:induction false} NoFrameHasNoAge(config: Config, edges: seq<U32>, now: U32)
    requires ConfigValid(config) && forall i: nat, j: nat :: !CompleteSegment(config, Widths(edges), i, j)
    ensures FrameAge(After(config, edges), now) == U32_MAX
  {
    LastValidIsItsEnd(config, edges);
  }

  /** The latest complete segment of a run ended at the edge j + 1, less than 2^32 - 1 microseconds ago:
      its age is right exactly when the clock did not show zero at that edge, for then the frame is
      taken for one that never came. */
  lemma {:induction false} FrameAgeIsRightIff(config: Config, times: seq<nat>, i: nat, j: nat, now: nat)
    requires ConfigValid(config) && LatestSegment(config, Widths(Shown(times)), i, j)
    requires j + 1 < |times| && times[j + 1] <= now && now - times[j + 1] < U32_MAX
    ensures var m := After(config, Shown(times));
            && (FrameAge(m, now % TWO_32) == now - times[j + 1] <==> times[j + 1] % TWO_32 != 0)
            && (times[j + 1] % TWO_32 == 0 ==> FrameAge(m, now % TWO_32) == U32_MAX)
  {
    hide LatestSegment, After, Widths;
    LastValidIsItsEnd(config, Shown(times));
    AgeIsRightIff(After(config, Shown(times)), times[j + 1], now);
  }

  /** A run that publishes a frame and denies it: one channel of 1500 microseconds, and a gap that ends
      when the clock wraps around to zero. */
  lemma {:induction false} FrameCanEndAtZero(now: U32)
    ensures var config := Config(1, 1, 3000, 1000, 2000);
            var m := After(config, [TWO_32 - 4500, TWO_32 - 3000, 0]);
            m.published == [1500] && m.counters.valid == 1 && FrameAge(m, now) == U32_MAX
  {
    var config := Config(1, 1, 3000, 1000, 2000);
    var edges: seq<U32> := [TWO_32 - 4500, TWO_32 - 3000];
    OneMoreEdge(config, [], TWO_32 - 4500);
    OneMoreEdge(config, [TWO_32 - 4500], TWO_32 - 3000);
    OneMoreEdge(config, edges, 0);
    assert [] + [TWO_32 - 4500] == [TWO_32 - 4500];
    assert [TWO_32 - 4500] + [TWO_32 - 3000] == edges;
    assert edges + [0] == [TWO_32 - 4500, TWO_32 - 3000, 0];
    var before := After(config, edges);
    assert before.working == [1500] && before.count == 1;
  }

  lemma {:induction false} OneMoreEdge(config: Config, edges: seq<U32>, now: U32)
    requires ConfigValid(config)
    ensures After(config, edges + [now]) == RisingEdge(After(config, edges), now).0
  {
    assert (edges + [now])[..|edges|] == edges;
  }

  lemma {:induction false} AgeIsRightIff(m: Model, published: nat, now: nat)
    requires m.lastValid == published % TWO_32 && published <= now && now - published < U32_MAX
    ensures FrameAge(m, now % TWO_32) == now - published <==> m.lastValid != 0
  {
    var a, b := now / TWO_32, published / TWO_32;
    assert now == a * TWO_32 + now % TWO_32 && published == b * TWO_32 + published % TWO_32;
    var d := now % TWO_32 - published % TWO_32;
    assert d == now - published - (a - b) * TWO_32;
    assert a == b || a == b + 1;
  }
}
