/** What becomes of each packet that the retimer is given, said in nanoseconds
    and of its state alone. */
module AudioTimeline {
  import opened Common
  import opened AudioRetimer

  /** The packet comes while the stream has begun, or begins with it. */
  predicate Comes(s: State, p: Packet) {
    StartedBy(s, p.now) && p.now > 20_000_000
  }

  predicate FirstTwoSeconds(s: State, now: int) {
    !s.started || now < s.streamStart + 2_000_000_000
  }

  /** How far past the timeline's end the sender's time stands. */
  function Ahead(s: State, p: Packet): int {
    p.timestamp + s.offset - s.next
  }

  /** Within 70 ms of it. */
  predicate IsNear(s: State, p: Packet) {
    -70_000_000 <= Ahead(s, p) <= 70_000_000
  }

  /** The place on the timeline: its end, moved by a 1024th of the packet towards the sender. */
  function Place(s: State, p: Packet): int {
    var ahead, limit := Ahead(s, p), p.duration / 1024;
    s.next + if ahead > limit then limit else if ahead < -limit then -limit else ahead
  }

  /** Where the packet would go: its place on the timeline, or its own time. */
  function Goal(s: State, p: Packet): int {
    if IsNear(s, p) then Place(s, p) else p.timestamp
  }

  predicate InTime(time: int, now: int) {
    time + 20_000_000 >= now
  }

  /** A start at the packet, 40 ms ahead of the clock at least. */
  predicate StartsAt(s: State, p: Packet, restarts: nat, o: Outcome) {
    var out := if p.timestamp < p.now + 40_000_000 then p.now + 40_000_000 else p.timestamp;
    && o.result == Emit(out) && o.state.started
    && o.state.streamStart == (if s.started then s.streamStart else p.now)
    && o.state.next == out + p.duration && o.state.offset == out - p.timestamp
    && o.state.anchored == (restarts > 0) && o.state.following
    && o.state.counts.resyncs == restarts
  }

  /** A late packet is left out, and the worst delay is kept. */
  predicate LeavesOut(s: State, p: Packet, behind: int, o: Outcome) {
    && o.result == Drop && o.state.next == s.next && o.state.offset == s.offset && o.state.anchored == s.anchored
    && o.state.counts.dropped == s.counts.dropped + 1
    && o.state.counts.worstDropped == if behind > s.counts.worstDropped then behind else s.counts.worstDropped
  }

  /** The first packet starts the timeline, unless it is late in the first two seconds. */
  lemma FirstPacket(s: State, p: Packet)
    requires Comes(s, p) && s.next == 0
    ensures var o := Step(s, p);
            if InTime(p.timestamp, p.now) then StartsAt(s, p, s.counts.resyncs, o)
            else if FirstTwoSeconds(s, p.now) then LeavesOut(s, p, p.now - p.timestamp, o)
            else StartsAt(s, p, s.counts.resyncs + 1, o)
  {
  }

  /** A packet near the timeline goes to its place there, in time and not too far ahead. */
  lemma NearIsPlaced(s: State, p: Packet)
    requires Comes(s, p) && s.next != 0 && IsNear(s, p) && InTime(Place(s, p), p.now)
    requires s.anchored ==> Place(s, p) <= p.now + 150_000_000
    ensures var Outcome(t, r) := Step(s, p);
            && r == Emit(Place(s, p)) && t.next == Place(s, p) + p.duration
            && t.offset == s.offset && t.anchored == s.anchored && t.following && t.counts == s.counts
  {
  }

  /** A step forward of the sender is followed: the packet comes out at its own
      time, from which the timeline goes on. */
  lemma StepForwardIsFollowed(s: State, p: Packet)
    requires Comes(s, p) && s.next != 0 && !IsNear(s, p) && InTime(p.timestamp, p.now)
    ensures var Outcome(t, r) := Step(s, p);
            && r == Emit(p.timestamp) && t.next == p.timestamp + p.duration
            && t.offset == 0 && !t.anchored && !t.following
            && t.counts == if s.following then s.counts.(steps := s.counts.steps + 1, lastStep := Ahead(s, p)) else s.counts
  {
  }

  /** The step of a packet that is not near the timeline is counted, once for each. */
  function WithStep(s: State, p: Packet): Counts {
    if !IsNear(s, p) && s.following then s.counts.(steps := s.counts.steps + 1, lastStep := Ahead(s, p)) else s.counts
  }

  /** What would come late is placed anew, the step being counted. */
  lemma LateIsRecovered(s: State, p: Packet) returns (b: State)
    requires Comes(s, p) && s.next != 0 && !InTime(Goal(s, p), p.now)
    ensures b == s.(started := true, streamStart := if s.started then s.streamStart else p.now,
                    following := IsNear(s, p), counts := WithStep(s, p))
    ensures (Late(b.next, p.now) ==> Goal(s, p) <= p.now)
    ensures Step(s, p) == Recover(b, Goal(s, p), p.timestamp, p.duration, p.now)
  {
    b := Placed(Begin(s, p.now), p.timestamp, p.now);
  }

  /** It is ridden over while the timeline is in time: it goes to the timeline's
      end, and the sender's later times continue from there. */
  lemma StepBackIsRiddenOver(s: State, p: Packet)
    requires Comes(s, p) && s.next != 0 && !InTime(Goal(s, p), p.now) && InTime(s.next, p.now)
    ensures var Outcome(t, r) := Step(s, p);
            && t.anchored && t.following && t.counts.held == s.counts.held + 1 && t.counts.resyncs == s.counts.resyncs
            && t.counts.steps == WithStep(s, p).steps && t.counts.lastStep == WithStep(s, p).lastStep
            && if s.next <= p.now + 150_000_000
               then r == Emit(s.next) && t.next == s.next + p.duration && t.offset == s.next - p.timestamp
               else r == Drop && t.next == s.next && t.offset == s.next - p.timestamp - p.duration
  {
    var b := LateIsRecovered(s, p);
    assert Step(s, p) == Deliver(Hold(b, p.timestamp), b.next, p.timestamp, p.duration, p.now);
  }

  /** With the timeline late too, a packet more than 70 ms late is left out in the
      first two seconds; any other restarts the timeline. */
  lemma LateTimelineRestarts(s: State, p: Packet)
    requires Comes(s, p) && s.next != 0 && !InTime(Goal(s, p), p.now) && !InTime(s.next, p.now)
    ensures var o := Step(s, p);
            if FirstTwoSeconds(s, p.now) && p.now - Goal(s, p) > 70_000_000
            then LeavesOut(s, p, p.now - Goal(s, p), o) && o.state.counts.steps == WithStep(s, p).steps
            else StartsAt(s, p, s.counts.resyncs + 1, o) && o.state.counts.steps == WithStep(s, p).steps
  {
    var b := LateIsRecovered(s, p);
    if FirstTwoSeconds(s, p.now) && p.now - Goal(s, p) > 70_000_000 {
      assert Step(s, p) == DropBacklog(b, Goal(s, p), p.now);
    } else {
      assert Step(s, p) == Start(Restart(b), p.timestamp, p.duration, p.now);
    }
  }

  /** A timeline that was moved is kept at most 150 ms ahead: the packet is left
      out, and the next one takes its place. */
  lemma RunningAheadIsTrimmed(s: State, p: Packet)
    requires Comes(s, p) && s.next != 0 && IsNear(s, p) && InTime(Place(s, p), p.now)
    requires s.anchored && Place(s, p) > p.now + 150_000_000
    ensures var Outcome(t, r) := Step(s, p);
            && r == Drop && t.next == s.next && t.offset == s.next - p.timestamp - p.duration
            && t.anchored && t.counts == s.counts.(trimmed := s.counts.trimmed + 1)
  {
  }

  // -------------------------------------------------------- after a step

  ghost predicate OwnTime(s: State, p: Packet) {
    StartedBy(s, p.now) ==> Step(s, p).result == Emit(p.timestamp)
  }

  predicate AllInTime(packets: seq<Packet>) {
    forall p :: p in packets ==> InTime(p.timestamp, p.now)
  }

  /** The timeline goes on where the sender is, up to a 1024th of a packet. */
  predicate WithSender(s: State, packets: seq<Packet>, duration: nat) {
    && s.offset == 0 && !s.anchored && s.next != 0
    && (packets != [] ==> Distance(packets[0].timestamp, s.next) <= duration / 1024)
  }

  lemma OwnTimeStays(s: State, p: Packet, rest: seq<Packet>, duration: nat)
    requires Comes(s, p) && WithSender(s, [p], duration) && InTime(p.timestamp, p.now)
    requires p.duration == duration && duration / 1024 <= 70_000_000
    requires rest != [] ==> Distance(rest[0].timestamp, p.timestamp + duration) <= duration / 1024
    ensures OwnTime(s, p) && WithSender(Step(s, p).state, rest, duration)
  {
    assert Place(s, p) == p.timestamp && IsNear(s, p);
    NearIsPlaced(s, p);
  }

  /** Once the sender is followed, a regular stream that comes in time comes out
      at its own times. */
  lemma {:induction false} FollowedStreamKeepsItsTimes(s: State, packets: seq<Packet>, since: nat, duration: nat)
    requires Clocked(packets, since) && StartedBy(s, since) && since > 20_000_000
    requires WithSender(s, packets, duration) && Regular(packets, duration) && duration / 1024 <= 70_000_000
    requires AllInTime(packets)
    ensures Throughout(s, packets, since, OwnTime)
    decreases |packets|
  {
    if packets != [] {
      var p, rest := packets[0], packets[1..];
      OwnTimeStays(s, p, rest, duration);
      FollowedStreamKeepsItsTimes(Step(s, p).state, rest, p.now, duration);
    }
  }

  /** So does a stream that begins with a step forward. */
  lemma StepForwardKeepsItsTimes(s: State, packets: seq<Packet>, since: nat, duration: nat)
    requires Clocked(packets, since) && StartedBy(s, since) && since > 20_000_000
    requires packets != [] && s.next != 0 && !IsNear(s, packets[0])
    requires Regular(packets, duration) && duration / 1024 <= 70_000_000 && AllInTime(packets)
    ensures Throughout(s, packets, since, OwnTime)
  {
    var p, rest := packets[0], packets[1..];
    StepForwardIsFollowed(s, p);
    FollowedStreamKeepsItsTimes(Step(s, p).state, rest, p.now, duration);
  }
}
