/** Pictures in whole runs of the seek protocol: which of them are kept, and in
    which order they are shown. */
module SeekPictures {
  import opened Common
  import opened PlaybackControl
  import opened SeekProtocol

  // -------------------------------------------------------------- kept or not

  /** While it still skips to the sender's position `catchUp`, a picture that ended before that. */
  predicate SenderPassed(s: System, position: int, shownFor: int, catchUp: Option<int>) {
    s.control.catching.video && catchUp.Some? && position + Max(0, shownFor) + 20_000 < catchUp.value
  }

  /** In every interleaving the presenter keeps a picture if and only if no seek
      is pending, it belongs to the latest seek carried out, the sender has not
      passed it, and it lies at most 20 ms before the target of that seek. */
  lemma PictureKept(s: System, start: nat, playing: bool, epoch: nat, presenting: nat, events: seq<Event>,
                    shownFor: int, catchUp: Option<int>)
    requires Reached(s, start, playing, epoch, presenting, events) && s.presenter.Judging?
    ensures var f := s.presenter.frame;
            Show(s, Judges(shownFor, catchUp)).presenter == Preparing(f, false) <==>
              && !s.control.request.pending && f.epoch == s.pipe.epoch
              && !SenderPassed(s, f.position, shownFor, catchUp)
              && f.position >= LatestTarget(Start(start, playing, epoch, presenting), events, start) - 20_000
  {
    ReachedInv(s, start, playing, epoch, presenting, events);
  }

  /** The presenter has a picture that it has neither shown nor turned down. */
  predicate Undecided(p: Presenter) {
    HasFrame(p) && !p.Late? && !p.Showing? && !p.Freeing? && !(p.Preparing? && p.coarse)
  }

  lemma UndecidedGoesOn(s: System, e: Event)
    requires Inv(s) && Undecided(s.presenter) && Current(s.pipe.epoch, s.presenter.frame)
    requires Enabled(s, e) && !s.control.request.pending && !s.stop
    requires !s.worker.Opening? && !(e.Displays? && e.show.Judges?) && e != Displays(Prepares(false))
    ensures var t := Next(s, e);
            t.presenter == Showing(s.presenter.frame, false)
            || (Undecided(t.presenter) && t.presenter.frame == s.presenter.frame)
  {
  }

  /** In every interleaving: but for judging it, the presenter gives up a picture
      of the latest seek only for a new seek, a stop or a failed conversion. */
  lemma PictureGoesOn(s: System, start: nat, playing: bool, epoch: nat, presenting: nat, events: seq<Event>, e: Event)
    requires Reached(s, start, playing, epoch, presenting, events)
    requires Undecided(s.presenter) && Current(s.pipe.epoch, s.presenter.frame)
    requires Enabled(s, e) && !s.control.request.pending && !s.stop
    requires !(e.Displays? && e.show.Judges?) && e != Displays(Prepares(false))
    ensures var t := Next(s, e);
            t.presenter == Showing(s.presenter.frame, false)
            || (Undecided(t.presenter) && t.presenter.frame == s.presenter.frame)
  {
    ReachedInv(s, start, playing, epoch, presenting, events);
    RunOwned(Start(start, playing, epoch, presenting), events, 0);
    UndecidedGoesOn(s, e);
  }

  // ----------------------------------------------------------- when it passes

  /** A picture passes exactly when it is due while playing, or as the one
      picture still to be shown while paused; it is given up for a stop, a
      pending seek or a new epoch, and waits otherwise. */
  lemma PicturePasses(s: System, due: bool)
    requires Inv(s) && s.presenter.Waiting?
    ensures var f, c, p := s.presenter.frame, s.control, Show(s, Presents(due)).presenter;
            if s.stop || c.request.pending || f.epoch != s.pipe.epoch then p == Freeing(f)
            else if (if c.info.playing then due else c.previewPending && c.info.hasVideo) then p == Showing(f, false)
            else p == Waiting(f)
  {
  }

  /** Waiting starts the clock of a playing item. A picture that passes moves the
      position reported: on to its own while playing, to its own while paused,
      where it is the last to pass and resuming will seek. */
  lemma PassingMoves(s: System, due: bool)
    requires Inv(s) && s.presenter.Waiting?
    requires !s.stop && !s.control.request.pending && s.presenter.frame.epoch == s.pipe.epoch
    ensures var f, c, t := s.presenter.frame, s.control, Show(s, Presents(due)).control;
            var later := if f.position > c.info.position then f.position else c.info.position;
            if c.info.playing then
              t == c.(clockRunning := true, info := if due then c.info.(position := later) else c.info)
            else if c.previewPending && c.info.hasVideo then
              t == c.(previewPending := false, resync := true, clockRunning := false, info := c.info.(position := f.position))
            else t == c
  {
  }

  /** The picture of a paused item. */
  predicate ShowsPaused(s: System, e: Event)
    requires Enabled(s, e)
  {
    ShowsOne(s, e) && !s.control.info.playing
  }

  function PausedShown(s: System, events: seq<Event>): nat
    requires Legal(s, events)
    decreases |events|
  {
    if events == [] then 0
    else (if ShowsPaused(s, events[0]) then 1 else 0) + PausedShown(Next(s, events[0]), events[1..])
  }

  /** The sender neither scrubs nor lets the item play. */
  predicate LeftPaused(events: seq<Event>) {
    forall e :: e in events && e.Sends? ==> !e.sender.Scrubs? && e.sender != Rates(true)
  }

  /** The picture still to be shown while paused is there until it is shown. */
  predicate PreviewKept(s: System, e: Event)
    requires Enabled(s, e)
  {
    var t := Next(s, e).control;
    && (t.previewPending ==> s.control.previewPending)
    && (ShowsPaused(s, e) ==> s.control.previewPending && !t.previewPending)
  }

  lemma ShowKeepsPreview(s: System, e: ShowEvent)
    requires CanShow(s, e)
    ensures PreviewKept(s, Displays(e))
  {
  }

  lemma FeedKeepsPreview(s: System, e: FeedEvent)
    requires CanFeed(s, e)
    ensures PreviewKept(s, Feeds(e))
  {
  }

  lemma StepKeepsPreview(s: System, e: Event)
    requires Enabled(s, e) && LeftPaused([e])
    ensures PreviewKept(s, e)
  {
    assert e in [e];
    match e
    case Feeds(feed) => FeedKeepsPreview(s, feed);
    case Displays(show) => ShowKeepsPreview(s, show);
    case _ =>
  }

  /** However long an item is left paused, at most one exact picture is shown
      meanwhile, and none once the picture of the last scrub has been. */
  lemma {:induction false} OnePausedPicture(s: System, events: seq<Event>)
    requires Legal(s, events) && LeftPaused(events)
    ensures PausedShown(s, events) <= if s.control.previewPending then 1 else 0
    decreases |events|
  {
    if events != [] {
      assert events[0] in events && forall e :: e in events[1..] ==> e in events;
      StepKeepsPreview(s, events[0]);
      OnePausedPicture(Next(s, events[0]), events[1..]);
    }
  }

  // -------------------------------------------------------------------- order

  /** Nothing that can still be shown in this epoch lies before `position`. */
  predicate From(s: System, position: int) {
    AllFrom(s.pipe.queue, s.pipe.epoch, TimedClone(s.worker), TimedFrame(s.presenter, s.pipe.epoch), s.marks.reached,
            position)
  }

  lemma FromStart(s: System)
    requires Inv(s)
    ensures From(s, 0)
  {
  }

  lemma FromFed(s: System, e: FeedEvent, position: int)
    requires Inv(s) && CanFeed(s, e) && From(s, position)
    ensures From(Feed(s, e), position)
  {
  }

  lemma FromShown(s: System, e: ShowEvent, position: int)
    requires Inv(s) && CanShow(s, e) && From(s, position)
    ensures From(Show(s, e), position)
  {
  }

  /** A queue that is emptied, or stays. */
  lemma FromRead(s: System, e: ReadEvent, position: int)
    requires Inv(s) && CanRead(s, e) && !e.TakesSeek? && From(s, position)
    ensures From(Read(s, e), position)
  {
  }

  lemma FromStep(s: System, e: Event, position: int)
    requires Inv(s) && Enabled(s, e) && e != Reads(TakesSeek) && From(s, position)
    ensures From(Next(s, e), position)
  {
    match e
    case Reads(read) => FromRead(s, read, position);
    case Feeds(feed) => FromFed(s, feed, position);
    case Displays(show) => FromShown(s, show, position);
    case _ =>
  }

  /** The presenter goes from waiting with a picture to showing it. */
  predicate ShowsOne(s: System, e: Event)
    requires Enabled(s, e)
  {
    s.presenter.Waiting? && Next(s, e).presenter.Showing?
  }

  lemma ShownIsCurrent(s: System, e: Event)
    requires Inv(s) && Enabled(s, e) && ShowsOne(s, e)
    ensures Current(s.pipe.epoch, s.presenter.frame)
    ensures From(Next(s, e), s.presenter.frame.position)
  {
  }

  /** The pictures shown in a run. */
  function Shown(s: System, events: seq<Event>): seq<Frame>
    requires Legal(s, events)
    decreases |events|
  {
    if events == [] then []
    else (if ShowsOne(s, events[0]) then [s.presenter.frame] else []) + Shown(Next(s, events[0]), events[1..])
  }

  predicate Later(f: Frame, epoch: nat, position: int) {
    f.epoch >= epoch && (f.epoch == epoch ==> f.position >= position)
  }

  lemma {:induction false} ShownFrom(s: System, events: seq<Event>, position: int)
    requires Inv(s) && Legal(s, events) && From(s, position)
    ensures forall f :: f in Shown(s, events) ==> Later(f, s.pipe.epoch, position)
    decreases |events|
  {
    if events != [] {
      var e := events[0];
      var t := Next(s, e);
      StepKeeps(s, e);
      StepMarks(s, e);
      if ShowsOne(s, e) { ShownIsCurrent(s, e); }
      if e == Reads(TakesSeek) {
        FromStart(t);
        ShownFrom(t, events[1..], 0);
      } else {
        FromStep(s, e, position);
        ShownFrom(t, events[1..], position);
      }
    }
  }

  predicate InOrder(frames: seq<Frame>) {
    forall i, j :: 0 <= i < j < |frames| ==> Later(frames[j], frames[i].epoch, frames[i].position)
  }

  lemma InOrderFirst(f: Frame, rest: seq<Frame>)
    requires InOrder(rest) && forall g :: g in rest ==> Later(g, f.epoch, f.position)
    ensures InOrder([f] + rest)
  {
  }

  lemma {:induction false} ShownStandInOrder(s: System, events: seq<Event>)
    requires Inv(s) && Legal(s, events)
    ensures InOrder(Shown(s, events))
    decreases |events|
  {
    if events != [] {
      var e, rest := events[0], events[1..];
      var t := Next(s, e);
      StepKeeps(s, e);
      StepMarks(s, e);
      ShownStandInOrder(t, rest);
      if ShowsOne(s, e) {
        ShownIsCurrent(s, e);
        ShownFrom(t, rest, s.presenter.frame.position);
        InOrderFirst(s.presenter.frame, Shown(t, rest));
      }
    }
  }

  /** Whatever the interleaving, the pictures that waitForPresentation lets
      through follow the seeks in the order in which they are carried out, and
      within one seek their positions do not go back. */
  lemma PicturesInOrder(start: nat, playing: bool, epoch: nat, presenting: nat, events: seq<Event>)
    requires Legal(Start(start, playing, epoch, presenting), events)
    ensures InOrder(Shown(Start(start, playing, epoch, presenting), events))
  {
    StartInv(start, playing, epoch, presenting);
    ShownStandInOrder(Start(start, playing, epoch, presenting), events);
  }
}
