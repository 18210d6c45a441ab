/** The timeline that mirrored audio is kept on, so that none of it comes late
    (src/audio-retimer.hpp). `Process` is the algorithm on unbounded integers;
    class `Retimer` runs it in the source's 64-bit arithmetic. */
module AudioRetimer {
  import opened Common

  const LATE := 20_000_000
  const STARTUP := 2_000_000_000
  const JITTER := 70_000_000
  const MAX_LEAD := 150_000_000
  const START_LEAD := 40_000_000

  datatype Result = Drop | Emit(timestamp: int)

  /** What the retimer reports about itself. */
  datatype Counts = Counts(steps: nat, lastStep: int, dropped: nat, worstDropped: int,
                           held: nat, resyncs: nat, trimmed: nat)

  datatype State = State(
    started: bool,
    streamStart: int,
    next: int,          // where the timeline goes on; 0 while nothing was emitted
    offset: int,        // from the sender's times to those of the timeline
    anchored: bool,     // the present offset comes from riding over or restarting
    following: bool,
    counts: Counts)

  datatype Outcome = Outcome(state: State, result: Result)

  const NONE := Counts(0, 0, 0, 0, 0, 0, 0)
  const FRESH := State(false, 0, 0, 0, false, true, NONE)

  predicate Late(timestamp: int, now: int) {
    timestamp + LATE < now
  }

  function SlewBy(difference: int, duration: int): int {
    var limit := duration / 1024;
    if difference > limit then limit else if difference < -limit then -limit else difference
  }

  /** A timeline from this packet on, later by what its lead lacks of START_LEAD. */
  function Start(s: State, timestamp: int, duration: int, now: int): Outcome {
    var out := if timestamp < now + START_LEAD then now + START_LEAD else timestamp;
    Outcome(s.(offset := out - timestamp, anchored := s.counts.resyncs > 0, following := true, next := out + duration),
            Emit(out))
  }

  function DropBacklog(s: State, timestamp: int, now: int): Outcome
    requires timestamp <= now
  {
    var behind := now - timestamp;
    Outcome(s.(counts := s.counts.(dropped := s.counts.dropped + 1,
                                   worstDropped := if behind > s.counts.worstDropped then behind
                                                   else s.counts.worstDropped)),
            Drop)
  }

  function Begin(s: State, now: int): State {
    if s.started then s else s.(started := true, streamStart := now)
  }

  predicate InStartup(s: State, now: int) {
    now - s.streamStart < STARTUP
  }

  predicate OnTimeline(s: State, timestamp: int) {
    Distance(timestamp + s.offset, s.next) <= JITTER
  }

  /** Whether the sender is followed although that leaves the timeline. */
  predicate Follows(s: State, timestamp: int, now: int) {
    !OnTimeline(s, timestamp) && !Late(timestamp, now)
  }

  /** The state in which a packet is placed: a step off the timeline is counted,
      and one that follows the sender resets the offset. */
  function Placed(s: State, timestamp: int, now: int): State {
    var on := OnTimeline(s, timestamp);
    var noted := if !on && s.following
      then s.counts.(steps := s.counts.steps + 1, lastStep := timestamp + s.offset - s.next) else s.counts;
    if Follows(s, timestamp, now) then s.(following := on, counts := noted, offset := 0, anchored := false)
    else s.(following := on, counts := noted)
  }

  /** Where it is placed before lateness is looked at; 0 means nowhere. */
  function PlacedAt(s: State, timestamp: int, duration: int, now: int): int {
    if OnTimeline(s, timestamp) then s.next + SlewBy(timestamp + s.offset - s.next, duration)
    else if !Late(timestamp, now) then timestamp
    else 0
  }

  /** Emits at `out`, unless the timeline runs too far ahead of now. */
  function Deliver(s: State, out: int, timestamp: int, duration: int, now: int): Outcome {
    if s.anchored && out > now + MAX_LEAD
    then Outcome(s.(counts := s.counts.(trimmed := s.counts.trimmed + 1), offset := s.next - timestamp - duration), Drop)
    else Outcome(s.(next := out + duration), Emit(out))
  }

  function Hold(s: State, timestamp: int): State {
    s.(offset := s.next - timestamp, anchored := true, following := true, counts := s.counts.(held := s.counts.held + 1))
  }

  function Restart(s: State): State {
    s.(counts := s.counts.(resyncs := s.counts.resyncs + 1))
  }

  /** The first packet of a timeline. */
  function First(s: State, timestamp: int, duration: int, now: int): Outcome {
    if Late(timestamp, now) && InStartup(s, now) then DropBacklog(s, timestamp, now)
    else Start(if Late(timestamp, now) then Restart(s) else s, timestamp, duration, now)
  }

  /** A packet that would be late at `behind`: ride over, drop or restart. */
  function Recover(s: State, behind: int, timestamp: int, duration: int, now: int): Outcome
    requires Late(s.next, now) ==> behind <= now
  {
    if !Late(s.next, now) then Deliver(Hold(s, timestamp), s.next, timestamp, duration, now)
    else if InStartup(s, now) && now - behind > JITTER then DropBacklog(s, behind, now)
    else Start(Restart(s), timestamp, duration, now)
  }

  function Process(s0: State, timestamp: int, duration: int, now: int): Outcome
    requires 0 <= now
    requires s0.started ==> s0.streamStart <= now
  {
    var s := Begin(s0, now);
    if s.next == 0 then First(s, timestamp, duration, now)
    else
      var p, out := Placed(s, timestamp, now), PlacedAt(s, timestamp, duration, now);
      if out != 0 && !Late(out, now) then Deliver(p, out, timestamp, duration, now)
      else Recover(p, if OnTimeline(s, timestamp) then out else timestamp, timestamp, duration, now)
  }

  // ------------------------------------------------ the 64-bit implementation

  const TWO63 := 0x8000_0000_0000_0000
  const TWO64 := 0x1_0000_0000_0000_0000

  function U64(x: int): (r: int)
    ensures 0 <= r < TWO64
    ensures 0 <= x < TWO64 ==> r == x
    ensures -TWO64 <= x < 0 ==> r == x + TWO64
  {
    x % TWO64
  }

  function I64(x: int): (r: int)
    ensures -TWO63 <= x < TWO63 ==> r == x
    ensures TWO63 <= x < TWO64 ==> r == x - TWO64
    ensures -TWO64 <= x < -TWO63 ==> r == x + TWO64
  {
    if U64(x) < TWO63 then U64(x) else U64(x) - TWO64
  }

  const RANGE := 0x2000_0000_0000_0000      // 2^61 ns: 73 years
  const LONGEST := 0x1_0000_0000            // 2^32 ns: 4 s a packet

  predicate InRange(timestamp: int, duration: int, now: int) {
    0 <= timestamp <= RANGE && 0 <= duration <= LONGEST && 10 * LATE <= now <= RANGE
  }

  /** What every call within the range keeps. */
  predicate Fits(s: State) {
    && (s.started ==> 0 <= s.streamStart <= RANGE)
    && (!s.started ==> s.next == 0)
    && (s.next == 0 || 9 * LATE <= s.next <= 2 * RANGE + 2 * LONGEST)
    && -RANGE - LONGEST <= s.offset <= 2 * RANGE + 2 * LONGEST
    && (!s.anchored ==> 0 <= s.offset <= RANGE + START_LEAD)
    && 0 <= s.counts.worstDropped <= RANGE
  }

  class Retimer {
    var started: bool
    var streamStart: int
    var next: int
    var offset: int
    var anchored: bool
    var following: bool
    var counts: Counts

    function View(): State reads this {
      State(started, streamStart, next, offset, anchored, following, counts)
    }

    constructor ()
      ensures View() == State(false, 0, 0, 0, false, true, Counts(0, 0, 0, 0, 0, 0, 0))
    {
      started, streamStart, next, offset := false, 0, 0, 0;
      anchored, following, counts := false, true, NONE;
    }

    method Reset()
      modifies this
      ensures View() == State(false, 0, 0, 0, false, true, Counts(0, 0, 0, 0, 0, 0, 0))
    {
      started, streamStart, next, offset := false, 0, 0, 0;
      anchored, following, counts := false, true, NONE;
    }

    predicate LateAt(timestamp: int, now: int) {
      U64(timestamp + LATE) < now
    }

    method StartAt(timestamp: int, duration: int, now: int) returns (result: Result)
      requires InRange(timestamp, duration, now)
      modifies this
      ensures Outcome(View(), result) == Start(old(View()), timestamp, duration, now)
    {
      var least := U64(now + START_LEAD);
      var out := if timestamp < least then least else timestamp;
      offset := I64(out - timestamp);
      anchored := counts.resyncs > 0;
      following := true;
      next := U64(out + duration);
      result := Emit(out);
    }

    method DropLate(timestamp: int, now: int) returns (result: Result)
      requires 0 <= timestamp <= now <= RANGE
      modifies `counts
      ensures Outcome(View(), result) == DropBacklog(old(View()), timestamp, now)
    {
      var behind := U64(now - timestamp);
      counts := counts.(dropped := counts.dropped + 1);
      if behind > counts.worstDropped { counts := counts.(worstDropped := behind); }
      result := Drop;
    }

    /** How far the sender's shifted time is from the timeline. */
    method Compare(timestamp: int) returns (onTimeline: bool, difference: int)
      requires Fits(View()) && next != 0 && 0 <= timestamp <= RANGE
      ensures onTimeline == OnTimeline(View(), timestamp)
      ensures difference == timestamp + offset - next
    {
      SignedDifference(timestamp, offset, next);
      var expected := U64(I64(timestamp) + offset);
      onTimeline := (if expected > next then U64(expected - next) else U64(next - expected)) <= JITTER;
      difference := I64(expected - next);
    }

    method PlaceAt(timestamp: int, duration: int, now: int) returns (onTimeline: bool, out: int)
      requires Fits(View()) && next != 0 && InRange(timestamp, duration, now)
      modifies `counts, `following, `offset, `anchored
      ensures onTimeline == OnTimeline(old(View()), timestamp)
      ensures View() == Placed(old(View()), timestamp, now) && out == PlacedAt(old(View()), timestamp, duration, now)
    {
      var difference;
      onTimeline, difference := Compare(timestamp);
      if !onTimeline && following {
        counts := counts.(steps := counts.steps + 1, lastStep := difference);
      }
      following := onTimeline;
      out := 0;
      if onTimeline {
        out := U64(next + SlewBy(difference, duration));
      } else if !LateAt(timestamp, now) {
        offset := 0;
        anchored := false;
        out := timestamp;
      }
    }

    method DeliverAt(out: int, timestamp: int, duration: int, now: int) returns (result: Result)
      requires Fits(View()) && InRange(timestamp, duration, now)
      requires 0 <= out <= 2 * RANGE + 3 * LONGEST
      modifies `counts, `offset, `next
      ensures Outcome(View(), result) == Deliver(old(View()), out, timestamp, duration, now)
    {
      if anchored && out > U64(now + MAX_LEAD) {
        counts := counts.(trimmed := counts.trimmed + 1);
        offset := I64(next - timestamp - duration);
        return Drop;
      }
      next := U64(out + duration);
      result := Emit(out);
    }

    method FirstAt(timestamp: int, duration: int, now: int) returns (result: Result)
      requires InRange(timestamp, duration, now) && 0 <= streamStart <= now
      modifies this
      ensures Outcome(View(), result) == First(old(View()), timestamp, duration, now)
    {
      if LateAt(timestamp, now) {
        if U64(now - streamStart) < STARTUP {
          result := DropLate(timestamp, now);
          return;
        }
        counts := counts.(resyncs := counts.resyncs + 1);
      }
      result := StartAt(timestamp, duration, now);
    }

    method RecoverAt(behind: int, timestamp: int, duration: int, now: int) returns (result: Result)
      requires Fits(View()) && InRange(timestamp, duration, now) && started && next != 0 && streamStart <= now
      requires Late(next, now) ==> 0 <= behind <= now
      modifies this
      ensures Outcome(View(), result) == Recover(old(View()), behind, timestamp, duration, now)
    {
      if !LateAt(next, now) {
        offset := I64(next - timestamp);
        anchored := true;
        following := true;
        counts := counts.(held := counts.held + 1);
        HoldFits(old(View()), timestamp, now);
        result := DeliverAt(next, timestamp, duration, now);
      } else if U64(now - streamStart) < STARTUP && U64(now - behind) > JITTER {
        result := DropLate(behind, now);
      } else {
        counts := counts.(resyncs := counts.resyncs + 1);
        result := StartAt(timestamp, duration, now);
      }
    }

    /** In range, 64-bit arithmetic never wraps where it matters: the method
        computes exactly what `Process` does, and stays in range. */
    method Process64(timestamp: int, duration: int, now: int) returns (result: Result)
      requires Fits(View()) && InRange(timestamp, duration, now)
      requires started ==> streamStart <= now
      modifies this
      ensures Outcome(View(), result) == Process(old(View()), timestamp, duration, now)
      ensures Fits(View())
    {
      ProcessFits(View(), timestamp, duration, now);
      if !started {
        started := true;
        streamStart := now;
      }
      if next == 0 {
        result := FirstAt(timestamp, duration, now);
        return;
      }
      PlaceInRange(View(), timestamp, duration, now);
      var onTimeline, out := PlaceAt(timestamp, duration, now);
      if out == 0 || LateAt(out, now) {
        result := RecoverAt(if onTimeline then out else timestamp, timestamp, duration, now);
      } else {
        result := DeliverAt(out, timestamp, duration, now);
      }
    }
  }

  /** The unsigned difference of a shifted time and the timeline, read as a
      signed number, is the true difference, also for a negative shifted time. */
  lemma SignedDifference(timestamp: int, offset: int, next: int)
    requires 0 <= timestamp <= RANGE && -RANGE - LONGEST <= offset <= 2 * RANGE + 2 * LONGEST
    requires 9 * LATE <= next <= 2 * RANGE + 2 * LONGEST
    ensures var expected := U64(I64(timestamp) + offset);
            && I64(expected - next) == timestamp + offset - next
            && (U64(Distance(expected, next)) <= JITTER <==> Distance(timestamp + offset, next) <= JITTER)
  {
  }

  lemma PlaceInRange(s: State, timestamp: int, duration: int, now: int)
    requires Fits(s) && s.next != 0 && InRange(timestamp, duration, now)
    ensures var p, out := Placed(s, timestamp, now), PlacedAt(s, timestamp, duration, now);
            && Fits(p) && p.next == s.next
            && 0 <= out <= 2 * RANGE + 3 * LONGEST
            && (!p.anchored ==> out <= p.offset + RANGE + JITTER)
  {
  }

  lemma DeliverFits(s: State, out: int, timestamp: int, duration: int, now: int)
    requires Fits(s) && s.next != 0 && InRange(timestamp, duration, now)
    requires !Late(out, now) && (!s.anchored ==> out <= s.offset + RANGE + JITTER)
    ensures Fits(Deliver(s, out, timestamp, duration, now).state)
  {
    var r := Deliver(s, out, timestamp, duration, now).state;
    assert 9 * LATE <= r.next;
    assert r.next <= 2 * RANGE + 2 * LONGEST;
    assert -RANGE - LONGEST <= r.offset <= 2 * RANGE + 2 * LONGEST;
    assert r.anchored || r.offset == s.offset;
  }

  lemma HoldFits(s: State, timestamp: int, now: int)
    requires Fits(s) && s.next != 0 && InRange(timestamp, 0, now)
    ensures Fits(Hold(s, timestamp))
  {
  }

  lemma StartFits(s: State, timestamp: int, duration: int, now: int)
    requires Fits(s) && s.started && InRange(timestamp, duration, now)
    ensures Fits(Start(s, timestamp, duration, now).state)
  {
  }

  lemma RecoverFits(s: State, behind: int, timestamp: int, duration: int, now: int)
    requires Fits(s) && s.next != 0 && InRange(timestamp, duration, now)
    requires Late(s.next, now) ==> 0 <= behind <= now
    ensures Fits(Recover(s, behind, timestamp, duration, now).state)
  {
    if !Late(s.next, now) {
      HoldFits(s, timestamp, now);
      DeliverFits(Hold(s, timestamp), s.next, timestamp, duration, now);
    } else {
      StartFits(Restart(s), timestamp, duration, now);
    }
  }

  lemma ProcessFits(s: State, timestamp: int, duration: int, now: int)
    requires Fits(s) && InRange(timestamp, duration, now)
    requires s.started ==> s.streamStart <= now
    ensures Fits(Process(s, timestamp, duration, now).state)
  {
    var b := Begin(s, now);
    if b.next == 0 {
      StartFits(b, timestamp, duration, now);
      StartFits(Restart(b), timestamp, duration, now);
    } else {
      PlaceInRange(b, timestamp, duration, now);
      var p, out := Placed(b, timestamp, now), PlacedAt(b, timestamp, duration, now);
      if out != 0 && !Late(out, now) {
        DeliverFits(p, out, timestamp, duration, now);
      } else {
        RecoverFits(p, if OnTimeline(b, timestamp) then out else timestamp, timestamp, duration, now);
      }
    }
  }

  // ------------------------------------------------------------ whole streams

  /** One call: a packet's play-at time, its length, and the clock at arrival. */
  datatype Packet = Packet(timestamp: int, duration: nat, now: nat)

  /** The clock does not run backwards. */
  predicate Clocked(packets: seq<Packet>, since: nat) {
    packets != [] ==> since <= packets[0].now && Clocked(packets[1..], packets[0].now)
  }

  predicate StartedBy(s: State, now: nat) {
    s.started ==> s.streamStart <= now
  }

  function Step(s: State, p: Packet): (r: Outcome)
    requires StartedBy(s, p.now)
    ensures StartedBy(r.state, p.now)
  {
    Process(s, p.timestamp, p.duration, p.now)
  }

  function Run(s: State, packets: seq<Packet>, since: nat): (r: State)
    requires Clocked(packets, since) && StartedBy(s, since)
    decreases |packets|
  {
    if packets == [] then s
    else Run(Step(s, packets[0]).state, packets[1..], packets[0].now)
  }

  /** `holds` of every step of the run. */
  ghost predicate Throughout(s: State, packets: seq<Packet>, since: nat, holds: (State, Packet) -> bool)
    requires Clocked(packets, since) && StartedBy(s, since)
    decreases |packets|
  {
    packets == [] ||
    (holds(s, packets[0]) && Throughout(Step(s, packets[0]).state, packets[1..], packets[0].now, holds))
  }

  /** From a fresh retimer, any stream within the range stays within it, so the
      64-bit class follows `Process` for ever. */
  lemma {:induction false} StreamFits(s: State, packets: seq<Packet>, since: nat)
    requires Fits(s) && Clocked(packets, since) && StartedBy(s, since)
    requires forall p :: p in packets ==> InRange(p.timestamp, p.duration, p.now)
    ensures Fits(FRESH) && Fits(Run(s, packets, since))
    decreases |packets|
  {
    if packets != [] {
      var p := packets[0];
      ProcessFits(s, p.timestamp, p.duration, p.now);
      StreamFits(Step(s, p).state, packets[1..], p.now);
    }
  }

  // ---- lateness and overlap

  predicate EmitsOnTime(s: State, p: Packet) {
    StartedBy(s, p.now) ==>
      var Outcome(after, r) := Step(s, p);
      r.Emit? ==> !Late(r.timestamp, p.now)
  }

  /** A packet starts earlier than the slew allows before the previous one's end
      only as the sender's own on-time value, followed from then on. */
  predicate OverlapsOnlyToFollow(s: State, p: Packet) {
    StartedBy(s, p.now) ==>
      var Outcome(after, r) := Step(s, p);
      r.Emit? && s.next != 0 && r.timestamp < s.next - p.duration / 1024 ==>
        r.timestamp == p.timestamp && !Late(p.timestamp, p.now) && !OnTimeline(s, p.timestamp)
        && after.offset == 0 && !after.anchored
  }

  /** An emission continues the timeline: the next packet is expected at its end. */
  predicate EmissionEndsTimeline(s: State, p: Packet) {
    StartedBy(s, p.now) ==>
      Ends(s.next, p, Step(s, p))
  }

  lemma StepEmitsOnTime(s: State, p: Packet)
    requires StartedBy(s, p.now)
    ensures EmitsOnTime(s, p)
  {
  }

  lemma StepOverlaps(s: State, p: Packet)
    requires StartedBy(s, p.now)
    ensures OverlapsOnlyToFollow(s, p)
  {
    var b := Begin(s, p.now);
    if b.next != 0 {
      var placed, out := Placed(b, p.timestamp, p.now), PlacedAt(b, p.timestamp, p.duration, p.now);
      assert placed.next == s.next;
      if out != 0 && !Late(out, p.now) {
        if OnTimeline(b, p.timestamp) {
          assert out >= s.next - p.duration / 1024;
        } else {
          assert placed.offset == 0 && !placed.anchored && out == p.timestamp;
        }
      } else if !Late(placed.next, p.now) {
      } else {
      }
    }
  }

  predicate Ends(next: int, p: Packet, o: Outcome) {
    if o.result.Emit? then o.state.next == o.result.timestamp + p.duration else o.state.next == next
  }

  lemma RecoverEnds(s: State, behind: int, p: Packet)
    requires Late(s.next, p.now) ==> behind <= p.now
    ensures Ends(s.next, p, Recover(s, behind, p.timestamp, p.duration, p.now))
  {
  }

  lemma StepEndsTimeline(s: State, p: Packet)
    requires StartedBy(s, p.now)
    ensures EmissionEndsTimeline(s, p)
  {
    var b := Begin(s, p.now);
    if b.next != 0 {
      var placed, out := Placed(b, p.timestamp, p.now), PlacedAt(b, p.timestamp, p.duration, p.now);
      if out == 0 || Late(out, p.now) {
        RecoverEnds(placed, if OnTimeline(b, p.timestamp) then out else p.timestamp, p);
      } else {
        assert Step(s, p) == Deliver(placed, out, p.timestamp, p.duration, p.now);
      }
    }
  }

  ghost predicate SafeStep(s: State, p: Packet) {
    EmitsOnTime(s, p) && OverlapsOnlyToFollow(s, p) && EmissionEndsTimeline(s, p)
  }

  lemma {:induction false} StreamIsSafe(s: State, packets: seq<Packet>, since: nat)
    requires Clocked(packets, since) && StartedBy(s, since)
    ensures Throughout(s, packets, since, SafeStep)
    decreases |packets|
  {
    if packets != [] {
      StepEmitsOnTime(s, packets[0]);
      StepOverlaps(s, packets[0]);
      StepEndsTimeline(s, packets[0]);
      StreamIsSafe(Step(s, packets[0]).state, packets[1..], packets[0].now);
    }
  }

  // ---- accounting

  function Emitted(s: State, packets: seq<Packet>, since: nat): nat
    requires Clocked(packets, since) && StartedBy(s, since)
    decreases |packets|
  {
    if packets == [] then 0
    else var Outcome(after, r) := Step(s, packets[0]);
         (if r.Emit? then 1 else 0) + Emitted(after, packets[1..], packets[0].now)
  }

  /** What an outcome did to the tallies, against the state it came from. */
  predicate Tallied(s: Counts, o: Outcome) {
    o.state.counts.dropped + o.state.counts.trimmed == s.dropped + s.trimmed + if o.result.Emit? then 0 else 1
  }

  lemma RecoverTallied(s: State, behind: int, timestamp: int, duration: int, now: int)
    requires Late(s.next, now) ==> behind <= now
    ensures Tallied(s.counts, Recover(s, behind, timestamp, duration, now))
  {
  }

  lemma StepAccounts(s: State, p: Packet)
    requires StartedBy(s, p.now)
    ensures Tallied(s.counts, Step(s, p))
  {
    var b := Begin(s, p.now);
    if b.next != 0 {
      var placed, out := Placed(b, p.timestamp, p.now), PlacedAt(b, p.timestamp, p.duration, p.now);
      if out == 0 || Late(out, p.now) {
        RecoverTallied(placed, if OnTimeline(b, p.timestamp) then out else p.timestamp, p.timestamp, p.duration, p.now);
      } else {
        assert Step(s, p) == Deliver(placed, out, p.timestamp, p.duration, p.now);
      }
    }
  }

  /** Every packet is emitted, dropped as backlog, or trimmed, and counted once. */
  lemma {:induction false} StreamAccounts(s: State, packets: seq<Packet>, since: nat)
    requires Clocked(packets, since) && StartedBy(s, since)
    ensures |packets| + s.counts.dropped + s.counts.trimmed
         == Emitted(s, packets, since) + Run(s, packets, since).counts.dropped + Run(s, packets, since).counts.trimmed
    decreases |packets|
  {
    if packets != [] {
      StepAccounts(s, packets[0]);
      StreamAccounts(Step(s, packets[0]).state, packets[1..], packets[0].now);
    }
  }

  // ---- the lead cap

  /** No restart and no first packet: the timeline goes on. */
  predicate GoesOn(s: State, p: Packet) {
    StartedBy(s, p.now) ==>
      s.next != 0 && Step(s, p).state.counts.resyncs == s.counts.resyncs && Step(s, p).state.anchored
  }

  lemma EmissionBounded(s: State, p: Packet)
    requires StartedBy(s, p.now) && GoesOn(s, p)
    ensures var Outcome(after, r) := Step(s, p);
            r.Emit? ==> after.next <= p.now + MAX_LEAD + p.duration
  {
  }

  /** A burst of any length at one instant on an anchored timeline adds no lead
      beyond the cap and one packet. */
  lemma {:induction false} BurstBounded(s: State, packets: seq<Packet>, now: nat, duration: nat)
    requires Clocked(packets, now) && StartedBy(s, now)
    requires forall p :: p in packets ==> p.now == now && p.duration <= duration
    requires Throughout(s, packets, now, GoesOn)
    ensures Run(s, packets, now).next == s.next || Run(s, packets, now).next <= now + MAX_LEAD + duration
    decreases |packets|
  {
    if packets != [] {
      var p := packets[0];
      EmissionBounded(s, p);
      StepEndsTimeline(s, p);
      BurstBounded(Step(s, p).state, packets[1..], now, duration);
    }
  }

  /** A trimmed packet leaves its place to its regular successor. */
  predicate Succeeds(s: State, p: Packet, o: Outcome) {
    o.state.counts.trimmed > s.counts.trimmed ==>
      o.result.Drop? && o.state.next == s.next && (p.timestamp + p.duration) + o.state.offset == o.state.next
  }

  lemma RecoverSucceeds(s: State, behind: int, p: Packet)
    requires Late(s.next, p.now) ==> behind <= p.now
    ensures Succeeds(s, p, Recover(s, behind, p.timestamp, p.duration, p.now))
  {
  }

  /** A trimmed packet leaves its place to its regular successor. */
  lemma TrimmedSuccessorTakesItsPlace(s: State, p: Packet)
    requires StartedBy(s, p.now)
    ensures Succeeds(s, p, Step(s, p))
  {
    var b := Begin(s, p.now);
    if b.next != 0 {
      var placed, out := Placed(b, p.timestamp, p.now), PlacedAt(b, p.timestamp, p.duration, p.now);
      if out == 0 || Late(out, p.now) {
        RecoverSucceeds(placed, if OnTimeline(b, p.timestamp) then out else p.timestamp, p);
      } else {
        assert Step(s, p) == Deliver(placed, out, p.timestamp, p.duration, p.now);
      }
    }
  }

  // ---- staying on the timeline

  function Gap(s: State, timestamp: int): int {
    timestamp + s.offset - s.next
  }

  /** Packets of one length whose intervals differ from it by at most the slew. */
  predicate Regular(packets: seq<Packet>, duration: nat) {
    packets != [] ==>
      && packets[0].duration == duration
      && (|packets| > 1 ==> Distance(packets[1].timestamp, packets[0].timestamp + duration) <= duration / 1024)
      && Regular(packets[1..], duration)
  }

  predicate PastStartup(s: State, now: nat) {
    s.started && s.streamStart + STARTUP <= now
  }

  lemma RegularStep(s: State, p: Packet, following: int)
    requires StartedBy(s, p.now) && PastStartup(s, p.now) && s.next != 0 && p.now > LATE
    requires OnTimeline(s, p.timestamp)
    requires p.duration / 1024 <= JITTER
    requires Distance(following, p.timestamp + p.duration) <= p.duration / 1024
    ensures var after := Step(s, p).state;
            && after.next != 0 && after.streamStart == s.streamStart && after.started
            && OnTimeline(after, following) && after.counts.steps == s.counts.steps
  {
  }

  ghost predicate OnTimelineStep(s: State, p: Packet) {
    OnTimeline(s, p.timestamp)
  }

  /** Past the startup window a regular stream that starts within the jitter
      stays within it, whatever the arrival times, through slews, ride-overs,
      restarts and trims: no step away from the timeline is ever counted. */
  lemma {:induction false} RegularStreamStaysOnTimeline(s: State, packets: seq<Packet>, since: nat, duration: nat)
    requires Clocked(packets, since) && StartedBy(s, since) && PastStartup(s, since) && s.next != 0
    requires since > LATE && duration / 1024 <= JITTER && Regular(packets, duration)
    requires packets != [] ==> OnTimeline(s, packets[0].timestamp)
    ensures Throughout(s, packets, since, OnTimelineStep)
    ensures Run(s, packets, since).counts.steps == s.counts.steps
    decreases |packets|
  {
    if packets != [] {
      var p := packets[0];
      RegularStep(s, p, if |packets| > 1 then packets[1].timestamp else p.timestamp + duration);
      RegularStreamStaysOnTimeline(Step(s, p).state, packets[1..], p.now, duration);
    }
  }

  /** Emitted without a ride-over, restart or trim. */
  predicate Plain(s: State, p: Packet) {
    StartedBy(s, p.now) ==>
      var Outcome(after, r) := Step(s, p);
      r.Emit? && after.counts.held == s.counts.held && after.counts.resyncs == s.counts.resyncs
  }

  /** Packets of one length, each due when the one before it ends; `last` is the
      due time of the packet after them. */
  predicate Exact(packets: seq<Packet>, first: int, duration: nat, last: int) {
    if packets == [] then last == first
    else packets[0].timestamp == first && packets[0].duration == duration
         && Exact(packets[1..], first + duration, duration, last)
  }

  lemma PlainStepSlews(s: State, p: Packet)
    requires StartedBy(s, p.now) && s.next != 0 && p.now > LATE
    requires OnTimeline(s, p.timestamp) && Plain(s, p)
    ensures var after := Step(s, p).state;
            && after.next != 0
            && Distance(Gap(after, p.timestamp + p.duration), 0)
               == Max(Distance(Gap(s, p.timestamp), 0) - p.duration / 1024, 0)
  {
    var b := Begin(s, p.now);
    var placed, out := Placed(b, p.timestamp, p.now), PlacedAt(b, p.timestamp, p.duration, p.now);
    assert placed.next == s.next && placed.offset == s.offset;
    if out == 0 || Late(out, p.now) {
      var behind := if OnTimeline(b, p.timestamp) then out else p.timestamp;
      RecoverIsNotPlain(placed, behind, p);
    } else {
      assert Step(s, p) == Deliver(placed, out, p.timestamp, p.duration, p.now);
    }
  }

  lemma RecoverIsNotPlain(s: State, behind: int, p: Packet)
    requires Late(s.next, p.now) ==> behind <= p.now
    ensures var o := Recover(s, behind, p.timestamp, p.duration, p.now);
            o.result.Emit? ==> o.state.counts.held > s.counts.held || o.state.counts.resyncs > s.counts.resyncs
  {
  }

  /** A gap after `n` steps of `slew` towards nothing. */
  function Closed(gap: int, slew: nat, n: nat): int
    decreases n
  {
    if n == 0 then gap else Closed(Max(gap - slew, 0), slew, n - 1)
  }

  lemma {:induction false} ClosedIs(gap: nat, slew: nat, n: nat)
    ensures Closed(gap, slew, n) == Max(gap - n * slew, 0)
    decreases n
  {
    if n > 0 {
      ClosedIs(Max(gap - slew, 0), slew, n - 1);
      assert n * slew == slew + (n - 1) * slew;
    }
  }

  lemma {:induction false} ExactEndsAt(packets: seq<Packet>, first: int, duration: nat, last: int)
    requires Exact(packets, first, duration, last)
    ensures last == first + |packets| * duration
    decreases |packets|
  {
    if packets != [] {
      var n := |packets| - 1;
      ExactEndsAt(packets[1..], first + duration, duration, last);
      assert (n + 1) * duration == duration + n * duration;
    }
  }

  /** The state after a plain packet of an exact stream. */
  lemma ExactStreamFirst(s: State, p: Packet, rest: seq<Packet>, since: nat)
    returns (after: State, second: int)
    requires StartedBy(s, since) && s.next != 0 && since > LATE && since <= p.now && Clocked(rest, p.now)
    requires OnTimeline(s, p.timestamp) && Plain(s, p)
    ensures StartedBy(s, p.now) && after == Step(s, p).state
    ensures second == p.timestamp + p.duration && after.next != 0 && OnTimeline(after, second)
    ensures Distance(Gap(after, second), 0)
         == Max(Distance(Gap(s, p.timestamp), 0) - p.duration / 1024, 0)
  {
    PlainStepSlews(s, p);
    after, second := Step(s, p).state, p.timestamp + p.duration;
  }

  /** What a run does after its first step. */
  lemma RunGoesOn(s: State, p: Packet, packets: seq<Packet>, rest: seq<Packet>, since: nat, after: State,
                  holds: (State, Packet) -> bool)
    requires Clocked(packets, since) && StartedBy(s, since) && Throughout(s, packets, since, holds)
    requires packets == [p] + rest && StartedBy(s, p.now) && after == Step(s, p).state
    ensures holds(s, p) && StartedBy(after, p.now) && Clocked(rest, p.now)
    ensures Run(s, packets, since) == Run(after, rest, p.now) && Throughout(after, rest, p.now, holds)
  {
  }

  /** What is left of a run of plain packets with exact intervals, the gap at
      its first packet being `gap`. */
  ghost predicate ExactRun(s: State, packets: seq<Packet>, since: nat, first: int, duration: nat, last: int, gap: nat) {
    && Clocked(packets, since) && StartedBy(s, since) && s.next != 0 && since > LATE
    && OnTimeline(s, first) && Exact(packets, first, duration, last)
    && Throughout(s, packets, since, Plain)
    && gap == Distance(Gap(s, first), 0)
  }

  lemma ExactGoesOn(s: State, p: Packet, packets: seq<Packet>, rest: seq<Packet>, since: nat, duration: nat, last: int,
                    gap: nat, narrower: nat)
    returns (after: State, second: int)
    requires ExactRun(s, packets, since, p.timestamp, duration, last, gap) && packets == [p] + rest
    requires narrower == Max(gap - duration / 1024, 0)
    ensures ExactRun(after, rest, p.now, second, duration, last, narrower)
    ensures Run(s, packets, since) == Run(after, rest, p.now)
  {
    RunGoesOn(s, p, packets, rest, since, Step(s, p).state, Plain);
    after, second := ExactStreamFirst(s, p, rest, since);
  }

  lemma {:induction false} ExactStreamSlews(s: State, packets: seq<Packet>, since: nat, first: int, duration: nat,
                                            last: int, slew: nat, gap: nat, end: State)
    requires ExactRun(s, packets, since, first, duration, last, gap) && slew == duration / 1024
    requires end == Run(s, packets, since)
    ensures Distance(Gap(end, last), 0) == Closed(gap, slew, |packets|)
    decreases |packets|
  {
    if packets != [] {
      var p, rest, narrower := packets[0], packets[1..], Max(gap - slew, 0);
      var after, second := ExactGoesOn(s, p, packets, rest, since, duration, last, gap, narrower);
      ExactStreamSlews(after, rest, p.now, second, duration, last, slew, narrower, end);
    }
  }

  /** With exact intervals the gap shrinks by the slew with every plain packet,
      down to nothing. */
  lemma ExactStreamCloses(s: State, packets: seq<Packet>, since: nat, first: int, duration: nat, last: int)
    requires Clocked(packets, since) && StartedBy(s, since) && s.next != 0 && since > LATE
    requires OnTimeline(s, first) && Exact(packets, first, duration, last)
    requires Throughout(s, packets, since, Plain)
    ensures last == first + |packets| * duration
    ensures Distance(Gap(Run(s, packets, since), last), 0)
         == Max(Distance(Gap(s, first), 0) - |packets| * (duration / 1024), 0)
  {
    var slew, gap := duration / 1024, Distance(Gap(s, first), 0);
    ExactEndsAt(packets, first, duration, last);
    ExactStreamSlews(s, packets, since, first, duration, last, slew, gap, Run(s, packets, since));
    ClosedIs(gap, slew, |packets|);
  }
}
