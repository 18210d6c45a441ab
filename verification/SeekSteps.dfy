/** What the steps of the seek protocol do to the player's state, said of that
    state alone and in microseconds: the laws that scrubs (`SeekFate`), pictures
    (`SeekPictures`) and sound (`SeekPositions`) leave open, and the end of a stopped item. */
module SeekSteps {
  import opened Common
  import opened PlaybackControl
  import opened SeekProtocol

  // ------------------------------------------------------------------- start

  /** A new item is to show a picture even while paused, from its start on, and
      lets both streams catch up with the sender; nothing is pending. */
  lemma ItemStarts(start: nat, playing: bool, epoch: nat, presenting: nat)
    ensures var s := Start(start, playing, epoch, presenting);
            var before := if start == 0 then -1 else start;
            && s.control.request == Request(false, start, before, before)
            && s.control.scrub.lastTarget == -1 && s.control.scrub.generation == 0
            && !s.control.scrub.burst && !s.control.scrub.coarseShown
            && s.control.info == Info(playing, start, false, false, false, 0)
            && s.control.catching == Catching(true, true)
            && s.control.previewPending && !s.control.resync && !s.control.clockRunning
            && s.pipe == Pipe([], epoch, presenting, false, false) && s.worker == Opening && s.presenter == Exited
            && s.marks == Marks(start, 0, 0) && s.ledger == Ledger(0, multiset{}) && !s.stop
  {
  }

  // ------------------------------------------------------------------ sender

  /** Pausing does nothing else. Playing ends the wait for a paused picture, lets
      both streams catch up with the sender again, and seeks to the position
      reported where a paused picture was shown; after the end it does nothing. */
  lemma RateChanges(s: System, play: bool)
    ensures var c, t := s.control, Send(s, Rates(play)).control;
            var here := c.info.position;
            if !play then t == c.(info := c.info.(playing := false))
            else if c.info.ended then t == c
            else
              && t.info == c.info.(playing := true) && t.scrub == c.scrub && t.clockRunning == c.clockRunning
              && !t.previewPending && !t.resync
              && t.request == (if c.resync && !c.request.pending then Request(true, here, here, here) else c.request)
              && t.catching == if c.info.playing then c.catching else Catching(true, true)
  {
  }

  lemma RemovalPauses(s: System)
    ensures var c, t := s.control, Send(s, Removes).control;
            t == c.(info := c.info.(playing := false), clockRunning := false)
  {
  }

  // ------------------------------------------------------------------ worker

  /** An item opens at the position asked for, or at its end where that is before. */
  lemma OpeningClamps(s: System, hasVideo: bool, duration: nat)
    requires s.worker.Opening?
    ensures var c, t := s.control, Read(s, Opens(hasVideo, duration)).control;
            && t == c.(info := c.info.(position := t.info.position, duration := duration, hasVideo := hasVideo, ready := true))
            && t.info.position == if 0 < duration < c.info.position then duration else c.info.position
  {
  }

  lemma FailureEnds(s: System)
    requires s.worker.Opening?
    ensures var c, t := s.control, Read(s, FailsToOpen).control;
            t == c.(info := c.info.(ended := true, playing := false, ready := false))
  {
  }

  /** A seek that is taken is no longer pending; its thresholds stay, its epoch
      begins, and the clock stands until the first picture or sound. */
  lemma TakingSeeks(s: System)
    requires CanRead(s, TakesSeek)
    ensures var c, t := s.control, Read(s, TakesSeek);
            && t.control == c.(request := c.request.(pending := false), clockRunning := false)
            && t.pipe == s.pipe.(epoch := s.pipe.epoch + 1) && t.worker == Clearing && t.marks == Marks(c.request.target, 0, 0)
  {
  }

  /** A reopened decoder goes on from the position reported, by a seek, unless
      one is pending. */
  lemma ReopeningSeeks(s: System)
    requires s.worker.Reopened?
    ensures var c, t := s.control, Read(s, Reseeks).control;
            var here := c.info.position;
            if c.request.pending then t == c else t == c.(request := Request(true, here, here, here), clockRunning := false)
  {
  }

  /** A picture waits for room among three, or for a seek or a stop; then, holding the
      queue, the worker gives it up for either of these and otherwise queues it last.
      Meanwhile the presenter takes nothing out and does not finish. */
  lemma HandingOver(s: System)
    ensures s.worker.Entering? ==>
      (CanFeed(s, FindsRoom) <==> |s.pipe.queue| < 3 || s.stop || s.control.request.pending)
    ensures s.worker.Leaving? ==>
      && (CanFeed(s, GivesUp) <==> s.stop || s.control.request.pending)
      && (CanFeed(s, Confirms) <==> !s.stop && !s.control.request.pending)
    ensures s.worker.Pushing? ==>
      && CanFeed(s, Pushes)
      && var t, clone := Feed(s, Pushes), s.worker.clone;
         t.pipe == s.pipe.(queue := s.pipe.queue + [Frame(clone.id, clone.position, s.pipe.epoch)])
    ensures s.worker.Leaving? || s.worker.Pushing? ==>
      !CanShow(s, Takes) && !CanShow(s, Finishes) && !CanShow(s, Exits)
  {
  }

  /** Before it reopens a decoder, and at the end, the worker waits until the presenter
      has shown all that is queued; the presenter leaves only for a stop or once it
      is told to quit and has taken all that is queued. */
  lemma WaitsForTheOther(s: System)
    ensures s.worker.Reopening? || s.worker.Emptying? ==>
      (CanClose(s, SeesIdle) <==> s.stop || (s.pipe.queue == [] && !s.pipe.busy))
    ensures CanClose(s, SeesIdle) ==>
      Close(s, SeesIdle) == s.(worker := if s.worker.Reopening? then Reopened else Holding)
    ensures CanShow(s, Exits) ==> s.stop || (s.pipe.quit && s.pipe.queue == [])
    ensures s.presenter.Idle? && s.pipe.quit && s.pipe.queue == [] && !s.worker.Leaving? && !s.worker.Pushing? ==>
      CanShow(s, Exits)
  {
  }

  /** An end of the input that may be recovered from seeks to the position
      reported where that is more than a second before the item's end. */
  lemma EndSeeks(s: System, recover: bool)
    requires s.worker.AtEnd?
    ensures var c, t := s.control, Close(s, EndsRead(recover));
            var here := c.info.position;
            && (if !c.request.pending && recover && here + 1_000_000 < c.info.duration
                then t.control == c.(request := Request(true, here, here, here), clockRunning := false) else t.control == c)
            && t.worker == if t.control.request.pending then Top else Decoding(true)
  {
  }

  /** The last picture is held until the item's end on the running clock. */
  lemma HoldingLasts(s: System, due: bool)
    requires Inv(s) && s.worker.Holding?
    ensures var c, t := s.control, Close(s, Holds(due));
            var timed := c.clockRunning && 0 < c.info.duration && c.info.position < c.info.duration;
            && (t.worker == Top <==> !s.stop && c.request.pending)
            && (t.worker == Ending <==> s.stop || (!c.request.pending && (!timed || (c.info.playing && due))))
            && (t.worker == Holding || t.worker == Top || t.worker == Ending)
            && t.control == if !s.stop && !c.request.pending && timed && c.info.playing && due
                            then c.(info := c.info.(position := c.info.duration)) else c
  {
  }

  lemma EndingMarks(s: System)
    requires s.worker.Ending?
    ensures var c, t := s.control, Close(s, Ends).control;
            t == if s.stop then c else c.(info := c.info.(ended := true, playing := false))
  {
  }

  // ----------------------------------------------------------------- judging

  /** A picture of an ended epoch, or one without a position, is released unjudged. */
  lemma OldPicturesGo(s: System)
    ensures s.presenter.Noted? ==>
      var f := s.presenter.frame;
      Show(s, ChecksEpoch) == s.(presenter := if f.epoch == s.pipe.epoch then Emitting(f) else Freeing(f))
    ensures s.presenter.Emitting? ==>
      var f := s.presenter.frame;
      Show(s, Emits) == s.(presenter := if f.position >= 0 && s.pipe.presenting == s.pipe.epoch then Judging(f) else Freeing(f))
  {
  }

  /** One that cannot be converted is released unshown; an exact one that can waits
      for its time, an inexact one is shown at once. Either way it is released after. */
  lemma ConvertedAreShown(s: System, ok: bool)
    ensures s.presenter.Preparing? ==>
      var f := s.presenter.frame;
      Show(s, Prepares(ok)) == s.(presenter := if !ok then Freeing(f) else if s.presenter.coarse then Showing(f, true) else Waiting(f))
    ensures s.presenter.Showing? ==> Show(s, Shows) == s.(presenter := Freeing(s.presenter.frame))
    ensures s.presenter.Freeing? ==> Show(s, Frees).presenter == Finishing && Show(s, Frees).pipe == s.pipe
  {
  }

  /** A picture that is kept clears the video threshold and ends that stream's
      catching up; one that lies before the threshold ends the catching up too. */
  lemma JudgingPictures(s: System, shownFor: int, catchUp: Option<int>)
    requires s.presenter.Judging?
    ensures var f, c, t := s.presenter.frame, s.control, Show(s, Judges(shownFor, catchUp));
            var lasts := if shownFor > 0 then shownFor else 0;
            var cleared := if c.request.discardVideo < 0 then c.request.discardVideo else -1;
            var passed := c.catching.video && catchUp.Some? && f.position + lasts + 20_000 < catchUp.value;
            if c.request.pending || s.pipe.presenting != s.pipe.epoch || passed then t.presenter == Late(f) && t.control == c
            else if c.request.discardVideo >= 0 && f.position + 20_000 < c.request.discardVideo
            then t.presenter == Late(f) && t.control == c.(catching := c.catching.(video := false))
            else
              && t.presenter == Preparing(f, false)
              && t.control == c.(catching := c.catching.(video := false), request := c.request.(discardVideo := cleared))
  {
  }

  lemma JudgingSound(s: System, position: int, catchUp: Option<int>)
    requires CanFeed(s, DecodesSound(position, catchUp))
    ensures var c, t := s.control, Feed(s, DecodesSound(position, catchUp));
            var cleared := if c.request.discardAudio < 0 then c.request.discardAudio else -1;
            var passed := c.catching.audio && catchUp.Some? && position + 20_000 < catchUp.value;
            if c.request.pending || passed then t.worker == s.worker && t.control == c
            else if c.request.discardAudio >= 0 && position + 20_000 < c.request.discardAudio
            then t.worker == s.worker && t.control == c.(catching := c.catching.(audio := false))
            else
              && t.worker == Sounding(s.worker.final, position)
              && t.control == c.(catching := c.catching.(audio := false), request := c.request.(discardAudio := cleared))
  {
  }

  // --------------------------------------------------------- coarse pictures

  /** A picture at least 150 ms before the target is shown while the exact one is
      late: only while paused, in a burst of scrubs, and once a scrub. */
  lemma CoarsePreview(s: System, due: bool)
    requires s.presenter.Late?
    ensures var f, c, t := s.presenter.frame, s.control, Show(s, TakesCoarse(due));
            var before := c.request.discardVideo;
            if !c.request.pending && s.pipe.presenting == s.pipe.epoch && !c.info.playing && c.previewPending
               && c.scrub.burst && !c.scrub.coarseShown && before >= 0 && f.position + 150_000 <= before && due
            then t.presenter == Preparing(f, true) && t.control == c.(scrub := c.scrub.(coarseShown := true))
            else t.presenter == Freeing(f) && t.control == c
  {
  }

  predicate TakesOneCoarse(s: System, e: Event)
    requires Enabled(s, e)
  {
    s.presenter.Late? && Next(s, e).presenter.Preparing?
  }

  function CoarseTaken(s: System, events: seq<Event>): nat
    requires Legal(s, events)
    decreases |events|
  {
    if events == [] then 0
    else (if TakesOneCoarse(s, events[0]) then 1 else 0) + CoarseTaken(Next(s, events[0]), events[1..])
  }

  predicate CoarseKept(s: System, e: Event)
    requires Enabled(s, e)
  {
    var t := Next(s, e).control;
    && (s.control.scrub.coarseShown ==> t.scrub.coarseShown)
    && (TakesOneCoarse(s, e) ==> !s.control.scrub.coarseShown && t.scrub.coarseShown)
  }

  lemma ShowKeepsCoarse(s: System, e: ShowEvent)
    requires CanShow(s, e)
    ensures CoarseKept(s, Displays(e))
  {
  }

  lemma StepKeepsCoarse(s: System, e: Event)
    requires Enabled(s, e) && !(e.Sends? && e.sender.Scrubs?)
    ensures CoarseKept(s, e)
  {
    if e.Displays? { ShowKeepsCoarse(s, e.show); }
  }

  /** Between two scrubs at most one inexact picture is taken. */
  lemma {:induction false} OneCoarsePicture(s: System, events: seq<Event>)
    requires Legal(s, events) && forall e :: e in events && e.Sends? ==> !e.sender.Scrubs?
    ensures CoarseTaken(s, events) <= if s.control.scrub.coarseShown then 0 else 1
    decreases |events|
  {
    if events != [] {
      assert events[0] in events && forall e :: e in events[1..] ==> e in events;
      StepKeepsCoarse(s, events[0]);
      OneCoarsePicture(Next(s, events[0]), events[1..]);
    }
  }

  // ---------------------------------------------------------------- winding up

  /** The worker's steps left until it is done, for a stopped item. */
  function StepsOut(w: Worker): nat {
    match w
    case Done => 0
    case Joining => 1
    case Quitting => 2
    case Opening => 1
    case Ending => 3
    case Top => 3
    case AtEnd => 3
    case Holding => 4
    case Reading => 4
    case AfterPacket => 4
    case Reopened => 4
    case Clearing => 5
    case Reopening => 5
    case Emptying => 5
    case Decoding(_) => 6
    case Leaving(_, _) => 7
    case Pushing(_, _) => 7
    case Sounding(_, _) => 7
    case Entering(_, _) => 8
  }

  /** The presenter's. */
  function StepsToExit(p: Presenter): nat {
    match p
    case Exited => 0
    case Idle => 1
    case Finishing => 2
    case Freeing(_) => 3
    case Showing(_, _) => 4
    case Waiting(_) => 4
    case Late(_) => 4
    case Preparing(_, _) => 5
    case Judging(_) => 6
    case Emitting(_) => 7
    case Noted(_) => 8
    case Took(_) => 9
  }

  function Rank(s: System): nat {
    StepsOut(s.worker) + StepsToExit(s.presenter)
  }

  /** A step by which the worker of a stopped item gets out. */
  function WorkerStep(w: Worker): Event {
    match w
    case Done => Closes(Joins)
    case Joining => Closes(Joins)
    case Quitting => Closes(Quits)
    case Opening => Reads(StopsOpening)
    case Ending => Closes(Ends)
    case Top => Reads(LeavesLoop)
    case AtEnd => Reads(LeavesLoop)
    case Holding => Closes(Holds(false))
    case Reading => Reads(ReadsEnd)
    case AfterPacket => Reads(NextPacket)
    case Reopened => Reads(Reseeks)
    case Clearing => Reads(Clears)
    case Reopening => Closes(SeesIdle)
    case Emptying => Closes(SeesIdle)
    case Decoding(_) => Feeds(Drains)
    case Leaving(_, _) => Feeds(GivesUp)
    case Pushing(_, _) => Feeds(Pushes)
    case Sounding(_, _) => Feeds(Sounds(false, 0))
    case Entering(_, _) => Feeds(FindsRoom)
  }

  function PresenterStep(p: Presenter): Event {
    match p
    case Exited => Displays(Exits)
    case Idle => Displays(Exits)
    case Finishing => Displays(Finishes)
    case Freeing(_) => Displays(Frees)
    case Showing(_, _) => Displays(Shows)
    case Waiting(_) => Displays(Presents(false))
    case Late(_) => Displays(TakesCoarse(false))
    case Preparing(_, _) => Displays(Prepares(false))
    case Judging(_) => Displays(Judges(0, None))
    case Emitting(_) => Displays(Emits)
    case Noted(_) => Displays(ChecksEpoch)
    case Took(_) => Displays(Notes)
  }

  lemma WorkerGetsOut(s: System)
    requires s.stop && !s.worker.Done? && !(s.worker.Joining? && !s.presenter.Exited?)
    ensures var e := WorkerStep(s.worker);
            Enabled(s, e) && Next(s, e).stop && Next(s, e).presenter == s.presenter && Rank(Next(s, e)) < Rank(s)
  {
  }

  lemma PresenterGetsOut(s: System)
    requires s.stop && !s.presenter.Exited? && s.worker.Joining?
    ensures var e := PresenterStep(s.presenter);
            Enabled(s, e) && Next(s, e).stop && Rank(Next(s, e)) < Rank(s)
  {
  }

  /** Nothing keeps a stopped item from its end: from every state, whatever waits for
      whatever, 17 steps of the worker and the presenter at most lead there. */
  lemma {:induction false} StoppedItemEnds(s: System) returns (events: seq<Event>)
    requires s.stop
    ensures Legal(s, events) && After(s, events).worker.Done?
    ensures |events| <= Rank(s) <= 17 && forall e :: e in events ==> !e.Sends?
    decreases Rank(s)
  {
    if s.worker.Done? {
      events := [];
    } else {
      var waits := s.worker.Joining? && !s.presenter.Exited?;
      var e := if waits then PresenterStep(s.presenter) else WorkerStep(s.worker);
      if waits { PresenterGetsOut(s); } else { WorkerGetsOut(s); }
      var rest := StoppedItemEnds(Next(s, e));
      events := [e] + rest;
      assert events[0] == e && events[1..] == rest;
    }
  }
}
