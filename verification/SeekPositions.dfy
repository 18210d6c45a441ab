/** Positions in whole runs of the seek protocol: sound follows the latest seek
    as pictures do, and between two seeks of the sender the position reported
    goes back at most once, by at most 20 ms. */
module SeekPositions {
  import opened Common
  import ReadRecovery
  import opened PlaybackControl
  import opened SeekProtocol
  import opened SeekFate

  // ------------------------------------------------------------------- sound

  /** The sound threshold is the latest seek's target until sound reaches it;
      from then on no sound lies before it. */
  predicate SoundThreshold(s: System) {
    && 0 <= s.marks.heard
    && (s.worker.Sounding? ==> s.worker.position == s.marks.heard)
    && (!s.control.request.pending ==>
          var before := s.control.request.discardAudio;
          && (before < 0 || before == s.marks.base)
          && (before < 0 ==> s.marks.base - FRAME_TOLERANCE <= s.marks.heard)
          && (s.worker.Sounding? ==> before < 0))
  }

  /** Sound comes out of the decoder no earlier than what came out before, since the latest seek. */
  predicate SoundGoesOn(s: System, e: Event) {
    e.Feeds? && e.feed.DecodesSound? ==> e.feed.position >= s.marks.heard
  }

  predicate SoundInOrder(s: System, events: seq<Event>)
    requires Legal(s, events)
    decreases |events|
  {
    events != [] ==> SoundGoesOn(s, events[0]) && SoundInOrder(Next(s, events[0]), events[1..])
  }

  lemma SoundFed(s: System, e: FeedEvent)
    requires SoundThreshold(s) && CanFeed(s, e) && SoundGoesOn(s, Feeds(e))
    ensures SoundThreshold(Feed(s, e))
  {
  }

  lemma SoundShown(s: System, e: ShowEvent)
    requires SoundThreshold(s) && CanShow(s, e)
    ensures SoundThreshold(Show(s, e))
  {
  }

  lemma SoundClosed(s: System, e: EndEvent)
    requires SoundThreshold(s) && CanClose(s, e)
    ensures SoundThreshold(Close(s, e))
  {
  }

  lemma SoundStep(s: System, e: Event)
    requires SoundThreshold(s) && Sound(s.control) && Enabled(s, e) && SoundGoesOn(s, e)
    ensures SoundThreshold(Next(s, e))
  {
    match e
    case Feeds(feed) => SoundFed(s, feed);
    case Displays(show) => SoundShown(s, show);
    case Closes(end) => SoundClosed(s, end);
    case _ =>
  }

  lemma {:induction false} SoundRun(s: System, events: seq<Event>)
    requires SoundThreshold(s) && Inv(s) && Legal(s, events) && SoundInOrder(s, events)
    ensures SoundThreshold(After(s, events))
    decreases |events|
  {
    if events != [] {
      SoundStep(s, events[0]);
      StepKeeps(s, events[0]);
      SoundRun(Next(s, events[0]), events[1..]);
    }
  }

  /** Whatever the interleaving, sound that waitForPresentation lets through is
      played while no seek is pending, at most 20 ms before the target of the
      latest seek carried out, as long as the decoder gives it out in order. */
  lemma SoundFollowsLatestSeek(s: System, start: nat, playing: bool, epoch: nat, presenting: nat, events: seq<Event>,
                               due: bool, audible: int)
    requires Reached(s, start, playing, epoch, presenting, events) && s.worker.Sounding?
    requires SoundInOrder(Start(start, playing, epoch, presenting), events)
    requires Wait(s.control, s.worker.position, false, false, s.stop, due, audible).turn.Presented?
    ensures !s.control.request.pending && !s.stop
    ensures s.worker.position >= LatestTarget(Start(start, playing, epoch, presenting), events, start) - 20_000
  {
    ReachedInv(s, start, playing, epoch, presenting, events);
    SoundRun(Start(start, playing, epoch, presenting), events);
  }

  /** And sound out of the decoder is kept if and only if no seek is pending, the
      sender has not passed it, and it lies at most 20 ms before that target. */
  lemma SoundKept(s: System, start: nat, playing: bool, epoch: nat, presenting: nat, events: seq<Event>,
                  position: int, catchUp: Option<int>)
    requires Reached(s, start, playing, epoch, presenting, events)
    requires SoundInOrder(Start(start, playing, epoch, presenting), events)
    requires CanFeed(s, DecodesSound(position, catchUp)) && position >= s.marks.heard
    ensures Feed(s, DecodesSound(position, catchUp)).worker.Sounding? <==>
              && !s.control.request.pending
              && !(s.control.catching.audio && catchUp.Some? && position + 20_000 < catchUp.value)
              && position >= LatestTarget(Start(start, playing, epoch, presenting), events, start) - 20_000
  {
    ReachedInv(s, start, playing, epoch, presenting, events);
    SoundRun(Start(start, playing, epoch, presenting), events);
  }

  /** Sound passes exactly when it is due while playing, never while paused; while
      a paused picture is still to come it is given up instead of waiting. */
  lemma SoundPasses(s: System, due: bool, audible: int)
    requires s.worker.Sounding?
    ensures var c, turn := s.control, Wait(s.control, s.worker.position, false, false, s.stop, due, audible).turn;
            && (turn.Presented? <==> !s.stop && !c.request.pending && c.info.playing && due)
            && (turn.Abandoned? <==> s.stop || c.request.pending
                                     || (!c.info.playing && c.previewPending && c.info.hasVideo))
            && Feed(s, Sounds(due, audible)).worker == if turn.Again? then s.worker else Decoding(s.worker.final)
  {
  }

  /** It moves the position reported only where there is no picture, on to what
      is audible, which is not past its own. */
  lemma SoundMoves(s: System, due: bool, audible: int)
    requires s.worker.Sounding?
    ensures var c, t := s.control, Feed(s, Sounds(due, audible)).control;
            var heard := if audible < s.worker.position then audible else s.worker.position;
            if s.stop || c.request.pending || !c.info.playing then t == c
            else if due && !c.info.hasVideo && heard > c.info.position
            then t == c.(clockRunning := true, info := c.info.(position := heard))
            else t == c.(clockRunning := true)
  {
  }

  // ------------------------------------------------------- reported position

  /** Past the end of the input no picture is left, unless the item is stopped. */
  predicate Drained(s: System) {
    && (HasFrame(s.presenter) ==> s.pipe.busy)
    && (s.worker.Holding? || Over(s.worker) ==> s.stop || (s.pipe.queue == [] && !HasFrame(s.presenter)))
  }

  /** The item has pictures, or may turn out to have some. */
  predicate Pictured(s: System) {
    s.control.info.hasVideo || s.worker.Opening?
  }

  /** The position reported is not past the target while no picture has reached
      that; from then on no picture lies more than 20 ms before it. */
  predicate Reported(s: System) {
    var position, request := s.control.info.position, s.control.request;
    && (request.pending ==> position <= request.target)
    && (Pictured(s) && !request.pending && !Over(s.worker) ==>
          if request.discardVideo >= 0 then position <= s.marks.base
          else AllFrom(s.pipe.queue, s.pipe.epoch, TimedClone(s.worker), TimedFrame(s.presenter, s.pipe.epoch),
                       s.marks.reached, position - FRAME_TOLERANCE))
  }

  /** What all steps keep about positions. */
  predicate Placed(s: System) {
    Inv(s) && Quiet(s.pipe.queue, s.worker, s.presenter) && Drained(s) && Reported(s)
  }

  lemma DrainedShow(s: System, e: ShowEvent)
    requires Drained(s) && CanShow(s, e)
    ensures Drained(Show(s, e))
  {
  }

  lemma DrainedFeed(s: System, e: FeedEvent)
    requires Drained(s) && CanFeed(s, e)
    ensures Drained(Feed(s, e))
  {
  }

  lemma DrainedStep(s: System, e: Event)
    requires Drained(s) && Quiet(s.pipe.queue, s.worker, s.presenter) && Enabled(s, e)
    ensures Drained(Next(s, e))
  {
    match e
    case Feeds(feed) => DrainedFeed(s, feed);
    case Displays(show) => DrainedShow(s, show);
    case _ =>
  }

  lemma ReportedSend(s: System, e: SenderEvent)
    requires Placed(s) && CanSend(s, e)
    ensures Reported(Send(s, e))
  {
  }

  lemma ReportedRead(s: System, e: ReadEvent)
    requires Placed(s) && CanRead(s, e)
    ensures Reported(Read(s, e))
  {
  }

  lemma ReportedFeed(s: System, e: FeedEvent)
    requires Placed(s) && CanFeed(s, e)
    ensures Reported(Feed(s, e))
  {
  }

  lemma ReportedClose(s: System, e: EndEvent)
    requires Placed(s) && CanClose(s, e)
    ensures Reported(Close(s, e))
  {
  }

  /** The first picture at the threshold clears it. */
  lemma ReportedJudges(s: System, shownFor: int, catchUp: Option<int>)
    requires Placed(s) && s.presenter.Judging?
    ensures Reported(Show(s, Judges(shownFor, catchUp)))
  {
  }

  /** A picture that is shown moves the position reported to its own. */
  lemma ReportedPresents(s: System, due: bool)
    requires Placed(s) && s.presenter.Waiting?
    ensures Reported(Show(s, Presents(due)))
  {
  }

  lemma ReportedShow(s: System, e: ShowEvent)
    requires Placed(s) && CanShow(s, e)
    ensures Reported(Show(s, e))
  {
    match e
    case Judges(shownFor, catchUp) => ReportedJudges(s, shownFor, catchUp);
    case Presents(due) => ReportedPresents(s, due);
    case _ =>
  }

  lemma QuietKept(s: System, e: Event)
    requires Quiet(s.pipe.queue, s.worker, s.presenter) && Enabled(s, e)
    ensures Quiet(Next(s, e).pipe.queue, Next(s, e).worker, Next(s, e).presenter)
  {
    if KeepsClones(e) { QuietStep(s, e); }
  }

  lemma PlacedStep(s: System, e: Event)
    requires Placed(s) && Enabled(s, e)
    ensures Placed(Next(s, e))
  {
    StepKeeps(s, e);
    QuietKept(s, e);
    DrainedStep(s, e);
    match e
    case Sends(sender) => ReportedSend(s, sender);
    case Reads(read) => ReportedRead(s, read);
    case Feeds(feed) => ReportedFeed(s, feed);
    case Closes(end) => ReportedClose(s, end);
    case Displays(show) => ReportedShow(s, show);
  }

  lemma PlacedStart(start: nat, playing: bool, epoch: nat, presenting: nat)
    ensures Placed(Start(start, playing, epoch, presenting))
  {
  }

  /** How far the position reported can still go back before the next scrub:
      the paused picture can lie before it, once. */
  function Back(s: System): nat {
    if s.control.previewPending then 20_000 else 0
  }

  /** The position goes back by no more than what less is left of that. */
  predicate PaysBack(s: System, t: System) {
    && Back(t) <= Back(s) && t.control.info.position >= s.control.info.position - (Back(s) - Back(t))
    && t.control.scrub.generation == s.control.scrub.generation
    && t.control.info.duration == s.control.info.duration
  }

  lemma PresentsPaysBack(s: System, due: bool)
    requires Placed(s) && s.presenter.Waiting?
    ensures PaysBack(s, Show(s, Presents(due)))
  {
  }

  lemma ShowPaysBack(s: System, e: ShowEvent)
    requires Placed(s) && CanShow(s, e)
    ensures PaysBack(s, Show(s, e))
  {
    if e.Presents? { PresentsPaysBack(s, e.due); }
  }

  lemma FeedPaysBack(s: System, e: FeedEvent)
    requires CanFeed(s, e)
    ensures PaysBack(s, Feed(s, e))
  {
  }

  lemma WorkerPaysBack(s: System, e: Event)
    requires Enabled(s, e) && (e.Reads? || e.Closes?) && !s.worker.Opening?
    ensures PaysBack(s, Next(s, e))
  {
  }

  lemma SendPaysBack(s: System, e: SenderEvent)
    requires CanSend(s, e) && !(e.Scrubs? && AsksForSeek(s, e))
    ensures PaysBack(s, Send(s, e))
  {
  }

  /** So does every step but an item's opening and a scrub. */
  lemma StepPaysBack(s: System, e: Event)
    requires Placed(s) && Enabled(s, e) && !s.worker.Opening? && !Scrubbed(s, e)
    ensures PaysBack(s, Next(s, e))
  {
    match e
    case Sends(sender) => SendPaysBack(s, sender);
    case Feeds(feed) => FeedPaysBack(s, feed);
    case Displays(show) => ShowPaysBack(s, show);
    case _ => WorkerPaysBack(s, e);
  }

  predicate Unscrubbed(s: System, events: seq<Event>)
    requires Legal(s, events)
    decreases |events|
  {
    events != [] ==> !Scrubbed(s, events[0]) && Unscrubbed(Next(s, events[0]), events[1..])
  }

  /** The worker meets the end of its input. */
  predicate MeetsEnd(e: Event) {
    e.Closes? && e.end.EndsRead?
  }

  /** The positions reported when it does. */
  function EndPositions(s: System, events: seq<Event>): seq<int>
    requires Legal(s, events)
    decreases |events|
  {
    if events == [] then []
    else (if MeetsEnd(events[0]) then [s.control.info.position] else []) + EndPositions(Next(s, events[0]), events[1..])
  }

  lemma {:induction false} PlacedRun(s: System, events: seq<Event>)
    requires Placed(s) && Legal(s, events)
    ensures Placed(After(s, events))
    decreases |events|
  {
    if events != [] {
      PlacedStep(s, events[0]);
      PlacedRun(Next(s, events[0]), events[1..]);
    }
  }

  lemma {:induction false} PositionsGoOn(s: System, events: seq<Event>)
    requires Placed(s) && !s.worker.Opening? && Legal(s, events) && Unscrubbed(s, events)
    ensures ReadRecovery.GoesOn(EndPositions(s, events), s.control.info.position, Back(s))
    decreases |events|
  {
    if events != [] {
      var e, rest := events[0], events[1..];
      var t := Next(s, e);
      PlacedStep(s, e);
      StepPaysBack(s, e);
      OpenedStays(s, e);
      PositionsGoOn(t, rest);
      ReadRecovery.GoesOnFromBefore(EndPositions(t, rest), s.control.info.position, Back(s), t.control.info.position, Back(t));
      assert MeetsEnd(e) ==> EndPositions(s, events)[1..] == EndPositions(t, rest);
      assert !MeetsEnd(e) ==> EndPositions(s, events) == EndPositions(t, rest);
    }
  }

  /** In every run of an opened item, as long as the sender does not scrub, the
      positions at which the worker meets the end of its input go back by at most
      20 ms in all. */
  lemma EndPositionsGoOn(s: System, start: nat, playing: bool, epoch: nat, presenting: nat, before: seq<Event>,
                         events: seq<Event>)
    requires Reached(s, start, playing, epoch, presenting, before) && !s.worker.Opening?
    requires Legal(s, events) && Unscrubbed(s, events)
    ensures ReadRecovery.GoesOn(EndPositions(s, events), s.control.info.position, 20_000)
  {
    PlacedStart(start, playing, epoch, presenting);
    PlacedRun(Start(start, playing, epoch, presenting), before);
    PositionsGoOn(s, events);
    ReadRecovery.GoesOnFromBefore(EndPositions(s, events), s.control.info.position, 20_000,
                                  s.control.info.position, Back(s));
  }

  // ------------------------------------------------------ asking again

  /** What the demuxer says besides: at the end of its input whether every byte
      was read, with a packet how far that reaches, where it carries a time. */
  datatype Note = Note(atEndOfFile: bool, until: Option<int>)

  /** The end as readOnAfterEnd finds it. */
  function EndFound(s: System, atEndOfFile: bool): ReadRecovery.End
    requires Sound(s.control)
  {
    ReadRecovery.End(s.control.info.position, s.control.scrub.generation, s.control.request.pending, atEndOfFile,
                     if s.control.info.duration > 0 then Some(s.control.info.duration) else None)
  }

  /** What a step means for how far reading has come. */
  function Noted(s: System, e: Event, n: Note): Option<ReadRecovery.Event>
    requires Sound(s.control)
  {
    if MeetsEnd(e) then Some(ReadRecovery.Ends(EndFound(s, n.atEndOfFile)))
    else if e == Reads(ReadsPacket) && n.until.Some? then Some(ReadRecovery.Demuxes(n.until.value))
    else if e == Reads(TakesSeek) || (e.Closes? && e.end.Holds? && Hold(s.control, s.stop, e.end.due).held.HeldSeek?)
    then Some(ReadRecovery.Repositions)
    else None
  }

  function Advanced(s: System, p: ReadRecovery.Progress, e: Event, n: Note): ReadRecovery.Progress
    requires Sound(s.control)
  {
    var noted := Noted(s, e, n);
    if noted.None? then p else ReadRecovery.Next(p, s.control.scrub.generation, noted.value)
  }

  /** An end of the input asks for the item again exactly when readOnAfterEnd says so. */
  predicate Obeys(s: System, p: ReadRecovery.Progress, e: Event, n: Note)
    requires Sound(s.control)
  {
    MeetsEnd(e) ==> e.end.recover == ReadRecovery.Asks(p, ReadRecovery.Ends(EndFound(s, n.atEndOfFile)))
  }

  /** A run of the protocol together with the worker's progress in reading. */
  ghost predicate Together(s: System, p: ReadRecovery.Progress, events: seq<Event>, notes: seq<Note>)
    requires Inv(s)
    decreases |events|
  {
    && |events| == |notes|
    && (events != [] ==>
          && Enabled(s, events[0]) && Obeys(s, p, events[0], notes[0])
          && (StepKeeps(s, events[0]);
              Together(Next(s, events[0]), Advanced(s, p, events[0], notes[0]), events[1..], notes[1..])))
  }

  /** This end of the input asks for the item again: from then on a seek is pending. */
  predicate AsksAgain(s: System, e: Event)
    requires Enabled(s, e)
  {
    MeetsEnd(e) && !s.control.request.pending && Next(s, e).control.request.pending
  }

  function TimesAsked(s: System, events: seq<Event>): nat
    requires Legal(s, events)
    decreases |events|
  {
    if events == [] then 0
    else (if AsksAgain(s, events[0]) then 1 else 0) + TimesAsked(Next(s, events[0]), events[1..])
  }

  lemma AsksAsTold(s: System, p: ReadRecovery.Progress, e: Event, n: Note)
    requires Inv(s) && Enabled(s, e) && Obeys(s, p, e, n)
    ensures AsksAgain(s, e) <==> Noted(s, e, n).Some? && ReadRecovery.Asks(p, Noted(s, e, n).value)
  {
  }

  lemma MetOne(met: seq<ReadRecovery.Event>, one: ReadRecovery.Event, rest: seq<ReadRecovery.Event>,
               p: ReadRecovery.Progress, generation: nat, duration: nat)
    requires met == [one] + rest && ReadRecovery.Steady(rest, generation, duration)
    requires one.Ends? ==> one.end.generation == generation && one.end.duration == Some(duration)
    ensures ReadRecovery.Steady(met, generation, duration)
    ensures ReadRecovery.Positions(met) == (if one.Ends? then [one.end.position] else []) + ReadRecovery.Positions(rest)
    ensures ReadRecovery.Requests(p, generation, met) == (if ReadRecovery.Asks(p, one) then 1 else 0)
            + ReadRecovery.Requests(ReadRecovery.Next(p, generation, one), generation, rest)
  {
  }

  /** What such a run tells the worker about reading. */
  lemma {:induction false} WhatIsMet(s: System, p: ReadRecovery.Progress, events: seq<Event>, notes: seq<Note>,
                                     generation: nat, duration: nat)
    returns (met: seq<ReadRecovery.Event>)
    requires Placed(s) && Together(s, p, events, notes) && Legal(s, events) && Unscrubbed(s, events)
    requires !s.worker.Opening? && duration > 0
    requires generation == s.control.scrub.generation && duration == s.control.info.duration
    ensures ReadRecovery.Steady(met, generation, duration) && ReadRecovery.Positions(met) == EndPositions(s, events)
    ensures ReadRecovery.Requests(p, generation, met) == TimesAsked(s, events)
    decreases |events|
  {
    met := [];
    if events != [] {
      var e, n := events[0], notes[0];
      PlacedStep(s, e);
      StepPaysBack(s, e);
      OpenedStays(s, e);
      AsksAsTold(s, p, e, n);
      var rest := WhatIsMet(Next(s, e), Advanced(s, p, e, n), events[1..], notes[1..], generation, duration);
      var noted := Noted(s, e, n);
      if noted.Some? {
        met := [noted.value] + rest;
        MetOne(met, noted.value, rest, p, generation, duration);
      } else {
        met := rest;
      }
    }
  }

  /** So in every such run the item is asked for again fewer than 6 D times, D
      its duration in seconds, wherever its responses end. */
  lemma RequestsBoundedInRun(s: System, start: nat, playing: bool, epoch: nat, presenting: nat, before: seq<Event>,
                             p: ReadRecovery.Progress, events: seq<Event>, notes: seq<Note>)
    requires Reached(s, start, playing, epoch, presenting, before) && !s.worker.Opening? && s.control.info.duration > 0
    requires p.recoveries == 0 || (p.recoveries <= ReadRecovery.MAX_READ_RECOVERIES
                                   && p.generationAtRecovery != s.control.scrub.generation)
    requires Inv(s) && Together(s, p, events, notes)
    requires Legal(s, events) && Unscrubbed(s, events)
    ensures TimesAsked(s, events) * 1_000_000 < 6 * s.control.info.duration
  {
    PlacedStart(start, playing, epoch, presenting);
    PlacedRun(Start(start, playing, epoch, presenting), before);
    EndPositionsGoOn(s, start, playing, epoch, presenting, before, events);
    var generation, duration := s.control.scrub.generation, s.control.info.duration;
    var met := WhatIsMet(s, p, events, notes, generation, duration);
    ReadRecovery.RequestsBounded(p, generation, s.control.info.position, duration, 20_000, met);
  }
}
