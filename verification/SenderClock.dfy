/** Sender timestamps on the local clock (normalizeTimestamp and
    resetStreamClock in src/airplay-server.cpp). All times are unsigned 64-bit
    nanoseconds. */
module SenderClock {
  import AudioRetimer
  import opened Common

  const U64 := 0x1_0000_0000_0000_0000
  const MAXIMUM_CLOCK_DELTA := 5_000_000_000

  /** The pair of times that anchors the sender's clock to the local one. */
  datatype Anchor = Unanchored | Anchor(source: nat, local: nat)

  datatype Normalized = Normalized(anchor: Anchor, time: nat)

  predicate Time(t: int) {
    0 <= t < U64
  }

  predicate Valid(a: Anchor) {
    a.Anchor? ==> Time(a.source) && Time(a.local)
  }

  /** The local time of `source` by the anchor. */
  function Mapped(a: Anchor, source: nat): int
    requires a.Anchor?
  {
    a.local + source - a.source
  }

  /** The anchor still serves: the local time exists and lies within 5 s of now. */
  predicate Serves(a: Anchor, source: nat, now: nat) {
    a.Anchor? && Time(Mapped(a, source)) && Distance(Mapped(a, source), now) <= MAXIMUM_CLOCK_DELTA
  }

  function Normalize(a: Anchor, source: nat, now: nat): Normalized {
    if source == 0 then Normalized(a, now)
    else if Serves(a, source, now) then Normalized(a, Mapped(a, source))
    else Normalized(Anchor(source, now), now)
  }

  class StreamClock {
    var initialized: bool
    var sourceOrigin: nat
    var localOrigin: nat

    function View(): Anchor reads this {
      if initialized then Anchor(sourceOrigin, localOrigin) else Unanchored
    }

    constructor ()
      ensures View() == Unanchored
    {
      initialized, sourceOrigin, localOrigin := false, 0, 0;
    }

    method Reset()
      modifies this
      ensures View() == Unanchored
    {
      initialized, sourceOrigin, localOrigin := false, 0, 0;
    }

    method ResetAnchor(source: nat, now: nat)
      modifies this
      ensures View() == Anchor(source, now)
    {
      initialized, sourceOrigin, localOrigin := true, source, now;
    }

    /** Every sum and difference stays within 64 unsigned bits. */
    method NormalizeTimestamp(source: nat, now: nat) returns (time: nat)
      requires Time(source) && Time(now) && Valid(View())
      modifies this
      ensures Valid(View()) && Normalized(View(), time) == Normalize(old(View()), source, now)
    {
      if source == 0 { return now; }
      if !initialized {
        ResetAnchor(source, now);
        return now;
      }
      if source >= sourceOrigin {
        var delta := source - sourceOrigin;
        if U64 - 1 - localOrigin < delta {
          ResetAnchor(source, now);
          return now;
        }
        time := localOrigin + delta;
      } else {
        var delta := sourceOrigin - source;
        if delta > localOrigin {
          ResetAnchor(source, now);
          return now;
        }
        time := localOrigin - delta;
      }
      if (time > now && time - now > MAXIMUM_CLOCK_DELTA) || (now > time && now - time > MAXIMUM_CLOCK_DELTA) {
        ResetAnchor(source, now);
        return now;
      }
    }
  }

  // ------------------------------------------------------------------ runs

  datatype Call = Call(source: nat, now: nat)

  predicate Legal(calls: seq<Call>) {
    forall k :: 0 <= k < |calls| ==> Time(calls[k].source) && Time(calls[k].now)
  }

  function After(a: Anchor, calls: seq<Call>): Anchor
    decreases |calls|
  {
    if calls == [] then a else After(Normalize(a, calls[0].source, calls[0].now).anchor, calls[1..])
  }

  function Times(a: Anchor, calls: seq<Call>): (times: seq<nat>)
    ensures |times| == |calls|
    decreases |calls|
  {
    if calls == [] then []
    else
      var n := Normalize(a, calls[0].source, calls[0].now);
      [n.time] + Times(n.anchor, calls[1..])
  }

  /** Whatever the sender's clock does, a normalized time is within 5 s of the
      local clock at its call. */
  lemma {:induction false} TimesNearNow(a: Anchor, calls: seq<Call>)
    requires Valid(a) && Legal(calls)
    ensures Valid(After(a, calls))
    ensures forall k :: 0 <= k < |calls| ==>
      Time(Times(a, calls)[k]) && Distance(Times(a, calls)[k], calls[k].now) <= 5_000_000_000
    decreases |calls|
  {
    if calls != [] {
      TimesNearNow(Normalize(a, calls[0].source, calls[0].now).anchor, calls[1..]);
    }
  }

  /** The anchor served every call. */
  predicate Unbroken(a: Anchor, calls: seq<Call>)
    decreases |calls|
  {
    calls != [] ==> calls[0].source != 0 && Serves(a, calls[0].source, calls[0].now) && Unbroken(a, calls[1..])
  }

  /** While the anchor serves, the sender's intervals come through unchanged. */
  lemma {:induction false} IntervalsKept(a: Anchor, calls: seq<Call>, j: nat, k: nat)
    requires a.Anchor? && Unbroken(a, calls) && j < |calls| && k < |calls|
    ensures Times(a, calls)[k] + calls[j].source == Times(a, calls)[j] + calls[k].source
    ensures After(a, calls) == a
    decreases |calls|
  {
    ServedTime(a, calls, j);
    ServedTime(a, calls, k);
  }

  lemma {:induction false} ServedTime(a: Anchor, calls: seq<Call>, k: nat)
    requires a.Anchor? && Unbroken(a, calls) && k < |calls|
    ensures Times(a, calls)[k] == Mapped(a, calls[k].source) && After(a, calls) == a
    decreases |calls|
  {
    if k > 0 {
      ServedTime(a, calls[1..], k - 1);
    } else if |calls| > 1 {
      ServedTime(a, calls[1..], 0);
    }
  }

  /** A sender time is mapped by the anchor where that gives a 64-bit time within
      5 s of the clock; any other, and the first, becomes the anchor at that
      clock. A missing time is the clock's and leaves the anchor. */
  lemma MapsOrAnchors(a: Anchor, source: nat, now: nat)
    requires Valid(a) && Time(source) && Time(now)
    ensures var n := Normalize(a, source, now);
            if source == 0 then n == Normalized(a, now)
            else if a == Unanchored then n == Normalized(Anchor(source, now), now)
            else
              var mapped := source + a.local - a.source;
              if 0 <= mapped < 18_446_744_073_709_551_616 && now - 5_000_000_000 <= mapped <= now + 5_000_000_000
              then n.anchor == a && n.time == mapped
              else n == Normalized(Anchor(source, now), now)
  {
  }

  /** So after a first sender time the clock stays anchored: at that time, or at
      a later one that the anchor did not serve. */
  lemma {:induction false} StaysAnchored(a: Anchor, calls: seq<Call>)
    requires exists k :: 0 <= k < |calls| && calls[k].source != 0
    ensures var b := After(a, calls);
            b.Anchor? && (b == a || exists k :: 0 <= k < |calls| && b == Anchor(calls[k].source, calls[k].now))
    decreases |calls|
  {
    var b := Normalize(a, calls[0].source, calls[0].now).anchor;
    if k :| 0 <= k < |calls[1..]| && calls[1..][k].source != 0 {
      assert calls[k + 1].source != 0;
      StaysAnchored(b, calls[1..]);
      if j :| 0 <= j < |calls[1..]| && After(a, calls) == Anchor(calls[1..][j].source, calls[1..][j].now) {
        assert After(a, calls) == Anchor(calls[j + 1].source, calls[j + 1].now);
      }
    } else {
      assert forall k :: 1 <= k < |calls| ==> calls[k] == calls[1..][k - 1];
      ZerosKeep(b, calls[1..]);
    }
  }

  lemma {:induction false} ZerosKeep(a: Anchor, calls: seq<Call>)
    requires forall k :: 0 <= k < |calls| ==> calls[k].source == 0
    ensures After(a, calls) == a
    decreases |calls|
  {
    if calls != [] { ZerosKeep(a, calls[1..]); }
  }

  /** A normalized time is one that the audio retimer takes. */
  lemma RetimerTakes(a: Anchor, source: nat, now: nat, duration: nat)
    requires Valid(a) && duration <= AudioRetimer.LONGEST
    requires 10 * AudioRetimer.LATE <= now <= AudioRetimer.RANGE - MAXIMUM_CLOCK_DELTA
    ensures AudioRetimer.InRange(Normalize(a, source, now).time, duration, now)
  {
  }
}
