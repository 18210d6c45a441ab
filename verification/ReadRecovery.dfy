/** How often reading an item is asked for again after it ended early
    (readOnAfterEnd in src/media-player.cpp). Times are whole microseconds. */
module ReadRecovery {
  import opened Common

  const MAX_READ_RECOVERIES := 3
  const RECOVERY_PROGRESS := 500_000
  const END_TOLERANCE := 1_000_000
  const DEMUXED_END_TOLERANCE := 100_000

  /** How far reading has come. */
  datatype Progress = Progress(
    recoveries: nat,
    positionAtRecovery: int,
    generationAtRecovery: nat,
    demuxedUntil: int,
    demuxedGeneration: nat,
    demuxedSinceSeek: bool)

  /** What the demuxer's end finds: the position shown, the sender's seek
      generation, whether a seek is pending, whether every byte was read, and
      the item's duration where it is known. */
  datatype End = End(position: nat, generation: nat, pending: bool, atEndOfFile: bool, duration: Option<nat>)

  datatype Verdict = Finished | SeekPending | AskAgain
  datatype Outcome = Outcome(progress: Progress, verdict: Verdict)

  predicate EarnsFreshAttempts(p: Progress, e: End) {
    e.position > p.positionAtRecovery + RECOVERY_PROGRESS || e.generation != p.generationAtRecovery
  }

  predicate EndedEarly(p: Progress, e: End) {
    && !(e.atEndOfFile && p.demuxedSinceSeek)
    && e.duration.Some? && e.position < e.duration.value - END_TOLERANCE
    && !(p.demuxedGeneration == e.generation && p.demuxedUntil >= e.duration.value - DEMUXED_END_TOLERANCE)
  }

  function ReadOnAfterEnd(p: Progress, e: End): Outcome {
    var q := p.(recoveries := if EarnsFreshAttempts(p, e) then 0 else p.recoveries, generationAtRecovery := e.generation);
    if e.pending then Outcome(q.(demuxedSinceSeek := false), SeekPending)
    else if EndedEarly(p, e) && q.recoveries < MAX_READ_RECOVERIES
    then Outcome(q.(recoveries := q.recoveries + 1, positionAtRecovery := e.position, demuxedSinceSeek := false), AskAgain)
    else Outcome(q, Finished)
  }

  /** A demuxed packet reaches to `until`. */
  function NoteDemuxed(p: Progress, generation: nat, until: int): Progress {
    var known := if p.demuxedGeneration != generation then 0 else p.demuxedUntil;
    p.(demuxedGeneration := generation, demuxedUntil := if until > known then until else known, demuxedSinceSeek := true)
  }

  class Reader {
    var recoveries: nat
    var positionAtRecovery: int
    var generationAtRecovery: nat
    var demuxedUntil: int
    var demuxedGeneration: nat
    var demuxedSinceSeek: bool

    function View(): Progress reads this {
      Progress(recoveries, positionAtRecovery, generationAtRecovery, demuxedUntil, demuxedGeneration, demuxedSinceSeek)
    }

    constructor ()
      ensures View() == Progress(0, -1_000_000, 0, 0, 0, false)
    {
      recoveries, positionAtRecovery, generationAtRecovery := 0, -1_000_000, 0;
      demuxedUntil, demuxedGeneration, demuxedSinceSeek := 0, 0, false;
    }

    method MeetEnd(e: End) returns (verdict: Verdict)
      modifies this
      ensures Outcome(View(), verdict) == ReadOnAfterEnd(old(View()), e)
    {
      var ioAtEnd := e.atEndOfFile && demuxedSinceSeek;
      verdict := Finished;
      if e.position > positionAtRecovery + RECOVERY_PROGRESS || e.generation != generationAtRecovery {
        recoveries := 0;
      }
      generationAtRecovery := e.generation;
      if e.pending {
        verdict := SeekPending;
      } else if !ioAtEnd && e.duration.Some? && e.position < e.duration.value - END_TOLERANCE
                && !(demuxedGeneration == e.generation && demuxedUntil >= e.duration.value - DEMUXED_END_TOLERANCE)
                && recoveries < MAX_READ_RECOVERIES {
        recoveries := recoveries + 1;
        positionAtRecovery := e.position;
        verdict := AskAgain;
      }
      if verdict != Finished { demuxedSinceSeek := false; }
    }

    method NotePacket(generation: nat, packetEnd: int)
      modifies this
      ensures View() == NoteDemuxed(old(View()), generation, packetEnd)
    {
      if demuxedGeneration != generation {
        demuxedGeneration := generation;
        demuxedUntil := 0;
      }
      if packetEnd > demuxedUntil { demuxedUntil := packetEnd; }
      demuxedSinceSeek := true;
    }
  }

  // ------------------------------------------------------------------ runs

  datatype Event = Ends(end: End) | Demuxes(until: int) | Repositions

  function Next(p: Progress, generation: nat, e: Event): Progress {
    match e
    case Ends(end) => ReadOnAfterEnd(p, end).progress
    case Demuxes(until) => NoteDemuxed(p, generation, until)
    case Repositions => p.(demuxedSinceSeek := false)
  }

  predicate Asks(p: Progress, e: Event) {
    e.Ends? && ReadOnAfterEnd(p, e.end).verdict == AskAgain
  }

  /** How often the run asks for the item again. */
  function Requests(p: Progress, generation: nat, events: seq<Event>): nat
    decreases |events|
  {
    if events == [] then 0
    else (if Asks(p, events[0]) then 1 else 0) + Requests(Next(p, generation, events[0]), generation, events[1..])
  }

  /** The ends of one run: the sender does not seek, and the duration stays what it is. */
  predicate Steady(events: seq<Event>, generation: nat, duration: nat) {
    forall e :: e in events && e.Ends? ==> e.end.generation == generation && e.end.duration == Some(duration)
  }

  /** The positions shown at the ends of a run. */
  function Positions(events: seq<Event>): seq<nat> {
    if events == [] then []
    else (if events[0].Ends? then [events[0].end.position] else []) + Positions(events[1..])
  }

  /** From `position` on the positions go back by no more than `back` in all. */
  predicate GoesOn(positions: seq<int>, position: int, back: nat) {
    positions != [] ==>
      positions[0] >= position - back && GoesOn(positions[1..], positions[0], back - Max(0, position - positions[0]))
  }

  /** Positions that go on from `later` with `left` go on from `position` with
      `back`, when the way from one to the other cost no more than the difference. */
  lemma {:induction false} GoesOnFromBefore(positions: seq<int>, position: int, back: nat, later: int, left: nat)
    requires GoesOn(positions, later, left) && left <= back && position - later <= back - left
    ensures GoesOn(positions, position, back)
    decreases |positions|
  {
    if positions != [] {
      var p := positions[0];
      GoesOnFromBefore(positions[1..], p, back - Max(0, position - p), p, left - Max(0, later - p));
    }
  }

  /** `asked` requests so far; the position shown is now `position` and has gone
      back by `lost` in all. Every three requests have it half a second further
      on; `level` is where it was, with what was lost until then, at the last one. */
  predicate Paid(p: Progress, generation: nat, position: nat, lost: nat, duration: nat, asked: nat, level: nat) {
    && p.recoveries <= MAX_READ_RECOVERIES
    && (asked == 0 ==> p.recoveries == 0 || p.generationAtRecovery != generation)
    && (asked > 0 ==>
          && p.generationAtRecovery == generation
          && p.positionAtRecovery < duration - END_TOLERANCE
          && p.positionAtRecovery <= level <= p.positionAtRecovery + lost
          && if p.recoveries > 0
             then (asked - p.recoveries) * RECOVERY_PROGRESS <= MAX_READ_RECOVERIES * level && level <= position + lost
             else && asked * RECOVERY_PROGRESS <= MAX_READ_RECOVERIES * (level + RECOVERY_PROGRESS)
                  && level + RECOVERY_PROGRESS < position + lost)
  }

  lemma StepPaid(p: Progress, generation: nat, position: nat, lost: nat, duration: nat, asked: nat, level: nat, e: Event)
    requires Paid(p, generation, position, lost, duration, asked, level)
    requires e.Ends? ==> e.end.generation == generation && e.end.duration == Some(duration)
    ensures var shown := if e.Ends? then e.end.position else position;
            var further := lost + Max(0, position - shown);
            Paid(Next(p, generation, e), generation, shown, further, duration,
                 asked + if Asks(p, e) then 1 else 0, if Asks(p, e) then shown + further else level)
  {
  }

  lemma PaidBounds(p: Progress, generation: nat, position: nat, lost: nat, duration: nat, asked: nat, level: nat, back: nat)
    requires Paid(p, generation, position, lost, duration, asked, level) && lost <= back
    ensures asked == 0 || asked * RECOVERY_PROGRESS < MAX_READ_RECOVERIES * (duration - RECOVERY_PROGRESS + back)
  {
  }

  lemma FirstGoesOn(events: seq<Event>, e: Event, rest: seq<Event>, position: nat, left: nat, shown: nat)
    requires events == [e] + rest && shown == if e.Ends? then e.end.position else position
    requires GoesOn(Positions(events), position, left)
    ensures position - shown <= left && GoesOn(Positions(rest), shown, left - Max(0, position - shown))
  {
    assert events[1..] == rest;
    if e.Ends? {
      assert Positions(events)[1..] == Positions(rest);
    } else {
      assert Positions(events) == Positions(rest);
    }
  }

  lemma {:induction false} RequestsPaid(p: Progress, generation: nat, position: nat, lost: nat, duration: nat, asked: nat,
                                        level: nat, back: nat, events: seq<Event>)
    requires Paid(p, generation, position, lost, duration, asked, level) && Steady(events, generation, duration)
    requires lost <= back && GoesOn(Positions(events), position, back - lost)
    ensures var total := asked + Requests(p, generation, events);
            total == 0 || total * RECOVERY_PROGRESS < MAX_READ_RECOVERIES * (duration - RECOVERY_PROGRESS + back)
    decreases |events|
  {
    if events == [] {
      PaidBounds(p, generation, position, lost, duration, asked, level, back);
    } else {
      var e := events[0];
      var shown := if e.Ends? then e.end.position else position;
      var further := lost + Max(0, position - shown);
      FirstGoesOn(events, e, events[1..], position, back - lost, shown);
      StepPaid(p, generation, position, lost, duration, asked, level, e);
      RequestsPaid(Next(p, generation, e), generation, shown, further, duration, asked + (if Asks(p, e) then 1 else 0),
                   if Asks(p, e) then shown + further else level, back, events[1..]);
    }
  }

  /** Between two seeks of the sender an item of D seconds is asked for again
      fewer than 6 D times, however its responses end: after every three requests
      the position shown has to come half a second further. Where it can go back,
      by less than half a second in all, the bound stays. */
  lemma RequestsBounded(p: Progress, generation: nat, position: nat, duration: nat, back: nat, events: seq<Event>)
    requires p.recoveries <= MAX_READ_RECOVERIES && (p.recoveries == 0 || p.generationAtRecovery != generation)
    requires Steady(events, generation, duration) && GoesOn(Positions(events), position, back)
    ensures var total := Requests(p, generation, events);
            && (total == 0 || total * RECOVERY_PROGRESS < MAX_READ_RECOVERIES * (duration - RECOVERY_PROGRESS + back))
            && (total > 0 && back <= RECOVERY_PROGRESS ==> total * 1_000_000 < 6 * duration)
  {
    RequestsPaid(p, generation, position, 0, duration, 0, 0, back, events);
  }

  /** An end is asked about again while fewer than three requests were made since
      the last progress: when no seek is pending, not every byte was read, the
      item's known end is more than a second off, and no packet since the last
      seek reached to within 100 ms of it. Progress is half a second of playback
      or a seek of the sender. */
  lemma AsksExactlyThen(p: Progress, generation: nat, e: End)
    ensures var earned := e.position > p.positionAtRecovery + 500_000 || e.generation != p.generationAtRecovery;
            Asks(p, Ends(e)) <==>
              && !e.pending && !(e.atEndOfFile && p.demuxedSinceSeek)
              && e.duration.Some? && e.position + 1_000_000 < e.duration.value
              && !(p.demuxedGeneration == e.generation && p.demuxedUntil + 100_000 >= e.duration.value)
              && (earned || p.recoveries < 3)
    ensures var earned := e.position > p.positionAtRecovery + 500_000 || e.generation != p.generationAtRecovery;
            var q, made := Next(p, generation, Ends(e)), if earned then 0 else p.recoveries;
            q == if Asks(p, Ends(e))
                 then p.(recoveries := made + 1, positionAtRecovery := e.position, generationAtRecovery := e.generation,
                         demuxedSinceSeek := false)
                 else p.(recoveries := made, generationAtRecovery := e.generation,
                         demuxedSinceSeek := p.demuxedSinceSeek && !e.pending)
  {
  }

  /** Packets count for the seek they follow: the furthest one is kept. */
  lemma PacketsReach(p: Progress, generation: nat, until: int)
    ensures var q := Next(p, generation, Demuxes(until));
            && q.demuxedGeneration == generation && q.demuxedSinceSeek
            && q.demuxedUntil >= until && (p.demuxedGeneration == generation ==> q.demuxedUntil >= p.demuxedUntil)
            && (q.demuxedUntil == until || q.demuxedUntil == if p.demuxedGeneration == generation then p.demuxedUntil else 0)
            && q == p.(demuxedUntil := q.demuxedUntil, demuxedGeneration := generation, demuxedSinceSeek := true)
  {
  }

  /** Packets that reach the stated duration make the next end the real one. */
  predicate Covered(p: Progress, generation: nat, duration: nat) {
    p.demuxedGeneration == generation && p.demuxedUntil >= duration - 100_000
  }

  lemma {:induction false} CoveredEndsForGood(p: Progress, generation: nat, duration: nat, events: seq<Event>)
    requires Covered(p, generation, duration) && Steady(events, generation, duration)
    ensures Requests(p, generation, events) == 0
    decreases |events|
  {
    if events != [] {
      CoveredEndsForGood(Next(p, generation, events[0]), generation, duration, events[1..]);
    }
  }
}
